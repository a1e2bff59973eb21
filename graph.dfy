/**
 * The Neo4j graph the pipeline writes, and the write statements it sends.
 *
 * Nodes are keyed as their MERGE clauses key them: a Paper by `arxiv_id`, an
 * Author by `name`, a Category by `id`, the single `UpdateLog` node by
 * `id: 'main'`. Relationships created by MERGE are sets of endpoint pairs.
 * Each Cypher write statement of the pipeline is a `Stmt` value; `Apply` gives
 * its effect on the graph as one clause after another: every UNWIND row is
 * matched against the graph as it stood before the statement, and where two
 * rows SET the same property the later row wins.
 *
 * A `Store` pairs the graph with a fault oracle: every write statement
 * (`session.run`) consumes one entry, and a `true` entry makes that statement
 * fail as a whole, leaving the graph as it was.
 */
module Graph {
  import opened Common
  import opened Dates

  /** The properties of a `Paper` node. */
  datatype Paper = Paper(
    title: Value, abstractText: Value, submitter: Value, journalRef: Value,
    doi: Text, reportNo: Value, license: Value,
    updateDate: Option<DateTime>, lastModified: Option<DateTime>,
    openalexId: Text)

  /** The `UpdateLog {id: 'main'}` node. */
  datatype Ledger = Ledger(lastUpdateTime: DateTime, updateCount: int)

  datatype Graph = Graph(
    papers: map<string, Paper>,        // arxiv_id -> properties
    authors: set<string>,              // Author.name
    categories: set<string>,           // Category.id (its name is always the id)
    wrote: set<(string, string)>,      // (Author.name)-[:WROTE]->(Paper.arxiv_id)
    hasCategory: set<(string, string)>,// (Paper.arxiv_id)-[:HAS_CATEGORY]->(Category.id)
    cites: set<(string, string)>,      // (Paper.arxiv_id)-[:CITES]->(Paper.arxiv_id)
    ledger: Option<Ledger>)

  const EmptyGraph := Graph(map[], {}, {}, {}, {}, {}, None)

  /** Every relationship joins two nodes that exist. */
  predicate WellFormed(g: Graph) {
    (forall e :: e in g.wrote ==> e.0 in g.authors && e.1 in g.papers)
    && (forall e :: e in g.hasCategory ==> e.0 in g.papers && e.1 in g.categories)
    && (forall e :: e in g.cites ==> e.0 in g.papers && e.1 in g.papers)
  }

  /** One UNWIND row of the paper MERGE statement. */
  datatype PaperRow = PaperRow(
    arxivId: Text, title: Value, abstractText: Value, submitter: Value, journalRef: Value,
    doi: Text, reportNo: Value, license: Value, updateDate: Option<DateTime>)

  /** One UNWIND row of a DOI match: the cleaned DOI and the OpenAlex work id. */
  datatype DoiUpdate = DoiUpdate(doi: string, openalexId: string)

  datatype Stmt =
    /** `UNWIND $papers MERGE (p:Paper {arxiv_id}) SET ...`; `stamp` is `datetime()` when `last_modified` is set. */
    | MergePapers(rows: seq<PaperRow>, stamp: Option<DateTime>)
    /** `UNWIND $authors MERGE (a:Author {name})`. */
    | MergeAuthors(names: seq<string>)
    /** `UNWIND $categories MERGE (c:Category {id}) SET c.name = id`. */
    | MergeCategories(ids: seq<string>)
    /** `UNWIND $paper_ids MATCH (p:Paper {arxiv_id})<-[r:WROTE]-() DELETE r`. */
    | DeleteWrote(paperIds: seq<Text>)
    /** `UNWIND $rels MATCH (a:Author {name}) MATCH (p:Paper {arxiv_id}) MERGE (a)-[:WROTE]->(p)`. */
    | MergeWrote(rels: seq<(string, Text)>)
    /** `UNWIND $paper_ids MATCH (p:Paper {arxiv_id})-[r:HAS_CATEGORY]->() DELETE r`. */
    | DeleteHasCategory(paperIds: seq<Text>)
    /** `UNWIND $rels MATCH (p:Paper {arxiv_id}) MATCH (c:Category {id}) MERGE (p)-[:HAS_CATEGORY]->(c)`. */
    | MergeHasCategory(links: seq<(Text, string)>)
    /** `MATCH (p:Paper {arxiv_id: $id}) DETACH DELETE p`. */
    | DetachDeletePaper(arxivId: Text)
    /** `MERGE (u:UpdateLog {id:'main'}) SET u.last_update_time = $t, u.update_count = COALESCE(u.update_count, 0) + 1`. */
    | RecordUpdate(time: DateTime)
    /** `MERGE (a:Author {name}) WITH a MATCH (p:Paper {arxiv_id}) MERGE (a)-[:WROTE]->(p)`. */
    | MergeAuthorWrote(name: string, arxivId: Text)
    /** `MERGE (c:Category {id}) SET c.name = id WITH c MATCH (p:Paper {arxiv_id}) MERGE (p)-[:HAS_CATEGORY]->(c)`. */
    | MergeCategoryHasCategory(category: string, arxivId: Text)
    /** `UNWIND $updates MATCH (p:Paper {doi}) [WHERE p.openalex_id IS NULL] SET p.openalex_id RETURN count(p)`. */
    | SetOpenAlexIds(updates: seq<DoiUpdate>, onlyUnset: bool)
    /** `UNWIND $batch MATCH (citing:Paper {openalex_id}) MATCH (cited:Paper {openalex_id}) MERGE (citing)-[:CITES]->(cited) RETURN count(*)`. */
    | MergeCites(pairs: seq<(string, string)>)

  // ---------------------------------------------------------------- papers

  /** The node a paper MERGE leaves: the row's properties, the OpenAlex id kept. */
  function UpsertNode(prev: Option<Paper>, row: PaperRow, stamp: Option<DateTime>): Paper {
    Paper(row.title, row.abstractText, row.submitter, row.journalRef, row.doi, row.reportNo,
          row.license, row.updateDate,
          if stamp.Some? then stamp else if prev.Some? then prev.value.lastModified else None,
          if prev.Some? then prev.value.openalexId else None)
  }

  function Lookup(papers: map<string, Paper>, k: string): Option<Paper> {
    if k in papers then Some(papers[k]) else None
  }

  predicate AllKeyed(rows: seq<PaperRow>) {
    forall i :: 0 <= i < |rows| ==> rows[i].arxivId.Some?
  }

  /** A value Neo4j can store as a property: a list property may not hold a null. */
  predicate StorableValue(v: Value) {
    v.Many? ==> forall i :: 0 <= i < |v.texts| ==> v.texts[i].Some?
  }

  /** Every property the paper MERGE SETs from the row can be stored. */
  predicate StorableRow(r: PaperRow) {
    StorableValue(r.title) && StorableValue(r.abstractText) && StorableValue(r.submitter)
    && StorableValue(r.journalRef) && StorableValue(r.reportNo) && StorableValue(r.license)
  }

  /**
   * The rows a paper MERGE accepts: each has its `arxiv_id` key, and none
   * SETs a list holding a null, which Neo4j refuses to store.
   */
  predicate AllStorable(rows: seq<PaperRow>) {
    AllKeyed(rows) && forall i :: 0 <= i < |rows| ==> StorableRow(rows[i])
  }

  /** The rows' MERGE ... SET, one row after another. */
  function MergeRows(papers: map<string, Paper>, rows: seq<PaperRow>, stamp: Option<DateTime>): map<string, Paper>
    requires AllKeyed(rows)
    decreases |rows|
  {
    if rows == [] then papers
    else
      var last := rows[|rows| - 1];
      var before := MergeRows(papers, rows[..|rows| - 1], stamp);
      var k := last.arxivId.value;
      before[k := UpsertNode(Lookup(before, k), last, stamp)]
  }

  /** The last row with key `k`, if any. */
  function LastRowFor(rows: seq<PaperRow>, k: string): Option<PaperRow>
    decreases |rows|
  {
    if rows == [] then None
    else if rows[|rows| - 1].arxivId == Some(k) then Some(rows[|rows| - 1])
    else LastRowFor(rows[..|rows| - 1], k)
  }

  /** A key has a last row exactly when some row carries it, and that row is one of the rows. */
  lemma {:induction false} LastRowForFound(rows: seq<PaperRow>, k: string)
    ensures LastRowFor(rows, k).Some? <==> exists i :: 0 <= i < |rows| && rows[i].arxivId == Some(k)
    ensures LastRowFor(rows, k).Some? ==> LastRowFor(rows, k).value in rows && LastRowFor(rows, k).value.arxivId == Some(k)
    decreases |rows|
  {
    if rows != [] {
      var init := rows[..|rows| - 1];
      LastRowForFound(init, k);
      if rows[|rows| - 1].arxivId != Some(k) {
        if exists i :: 0 <= i < |rows| && rows[i].arxivId == Some(k) {
          var i :| 0 <= i < |rows| && rows[i].arxivId == Some(k);
          assert init[i] == rows[i];
        }
        if LastRowFor(init, k).Some? {
          var i :| 0 <= i < |init| && init[i] == LastRowFor(init, k).value;
          assert rows[i] == init[i];
        }
      }
    }
  }

  /**
   * After the MERGE every row's paper exists, carries the properties of its
   * last row and keeps its OpenAlex id; papers no row names are untouched.
   */
  lemma {:induction false} MergeRowsEffect(papers: map<string, Paper>, rows: seq<PaperRow>, stamp: Option<DateTime>, k: string)
    requires AllKeyed(rows)
    ensures var m := MergeRows(papers, rows, stamp);
      match LastRowFor(rows, k)
      case None => Lookup(m, k) == Lookup(papers, k)
      case Some(row) => k in m && m[k] == UpsertNode(Lookup(papers, k), row, stamp)
    decreases |rows|
  {
    if rows != [] {
      var init := rows[..|rows| - 1];
      assert AllKeyed(init);
      MergeRowsEffect(papers, init, stamp, k);
      var last := rows[|rows| - 1];
      if last.arxivId != Some(k) {
      } else {
        match LastRowFor(init, k)
        case None =>
        case Some(r0) =>
          // an earlier row of the same paper only passes on what the MERGE keeps
          assert UpsertNode(Some(UpsertNode(Lookup(papers, k), r0, stamp)), last, stamp)
              == UpsertNode(Lookup(papers, k), last, stamp);
      }
    }
  }

  // ---------------------------------------------------------------- DOI matches

  /** Papers a DOI-match row finds. */
  predicate Eligible(p: Paper, doi: string, onlyUnset: bool) {
    p.doi == Some(doi) && (!onlyUnset || p.openalexId.None?)
  }

  function MatchedBy(papers: map<string, Paper>, u: DoiUpdate, onlyUnset: bool): set<string> {
    set k | k in papers && Eligible(papers[k], u.doi, onlyUnset)
  }

  /** `count(p)`: the number of (row, matched paper) pairs. */
  function MatchCount(papers: map<string, Paper>, updates: seq<DoiUpdate>, onlyUnset: bool): nat
    decreases |updates|
  {
    if updates == [] then 0
    else |MatchedBy(papers, updates[0], onlyUnset)| + MatchCount(papers, updates[1..], onlyUnset)
  }

  /** The OpenAlex id of the last row carrying `doi`. */
  function LastIdFor(updates: seq<DoiUpdate>, doi: string): Text
    decreases |updates|
  {
    if updates == [] then None
    else if updates[|updates| - 1].doi == doi then Some(updates[|updates| - 1].openalexId)
    else LastIdFor(updates[..|updates| - 1], doi)
  }

  predicate HasDoiRow(updates: seq<DoiUpdate>, doi: string) {
    exists i :: 0 <= i < |updates| && updates[i].doi == doi
  }

  /** The id a paper carries after the statement. */
  function NewOpenAlexId(p: Paper, updates: seq<DoiUpdate>, onlyUnset: bool): Text {
    if p.doi.Some? && Eligible(p, p.doi.value, onlyUnset) && LastIdFor(updates, p.doi.value).Some?
    then LastIdFor(updates, p.doi.value) else p.openalexId
  }

  function SetIds(papers: map<string, Paper>, updates: seq<DoiUpdate>, onlyUnset: bool): map<string, Paper> {
    map k | k in papers :: papers[k].(openalexId := NewOpenAlexId(papers[k], updates, onlyUnset))
  }

  // ---------------------------------------------------------------- citations

  function Holders(papers: map<string, Paper>, openalexId: string): set<string> {
    set k | k in papers && papers[k].openalexId == Some(openalexId)
  }

  /** `count(*)`: one row per (pair, citing match, cited match). */
  function CiteCount(papers: map<string, Paper>, pairs: seq<(string, string)>): nat
    decreases |pairs|
  {
    if pairs == [] then 0
    else |Holders(papers, pairs[0].0)| * |Holders(papers, pairs[0].1)| + CiteCount(papers, pairs[1..])
  }

  predicate CitePairFor(papers: map<string, Paper>, pairs: seq<(string, string)>, a: string, b: string)
    requires a in papers && b in papers
  {
    exists i :: 0 <= i < |pairs| && papers[a].openalexId == Some(pairs[i].0) && papers[b].openalexId == Some(pairs[i].1)
  }

  function CitesAdded(papers: map<string, Paper>, pairs: seq<(string, string)>): set<(string, string)> {
    set a, b | a in papers && b in papers && CitePairFor(papers, pairs, a, b) :: (a, b)
  }

  // ---------------------------------------------------------------- statements

  function Keyed(ids: seq<Text>): set<string> {
    set i | 0 <= i < |ids| && ids[i].Some? :: ids[i].value
  }

  /** A statement's effect and the count it returns; `None` when Neo4j rejects it. */
  function Apply(g: Graph, s: Stmt): (r: Option<(Graph, nat)>)
    ensures r.None? <==> s.MergePapers? && !AllStorable(s.rows)
    ensures r.Some? && !s.RecordUpdate? ==> r.value.0.ledger == g.ledger
  {
    match s
    case MergePapers(rows, stamp) =>
      if AllStorable(rows) then Some((g.(papers := MergeRows(g.papers, rows, stamp)), 0)) else None
    case MergeAuthors(names) =>
      Some((g.(authors := g.authors + set i | 0 <= i < |names| :: names[i]), 0))
    case MergeCategories(ids) =>
      Some((g.(categories := g.categories + set i | 0 <= i < |ids| :: ids[i]), 0))
    case DeleteWrote(ids) =>
      Some((g.(wrote := set e | e in g.wrote && e.1 !in Keyed(ids)), 0))
    case MergeWrote(rels) =>
      var added := set i | 0 <= i < |rels| && rels[i].1.Some? && rels[i].0 in g.authors && rels[i].1.value in g.papers
        :: (rels[i].0, rels[i].1.value);
      Some((g.(wrote := g.wrote + added), 0))
    case DeleteHasCategory(ids) =>
      Some((g.(hasCategory := set e | e in g.hasCategory && e.0 !in Keyed(ids)), 0))
    case MergeHasCategory(links) =>
      var added := set i | 0 <= i < |links| && links[i].0.Some? && links[i].0.value in g.papers && links[i].1 in g.categories
        :: (links[i].0.value, links[i].1);
      Some((g.(hasCategory := g.hasCategory + added), 0))
    case DetachDeletePaper(id) =>
      if id.Some? && id.value in g.papers then
        var k := id.value;
        Some((g.(papers := g.papers - {k},
                 wrote := (set e | e in g.wrote && e.1 != k),
                 hasCategory := (set e | e in g.hasCategory && e.0 != k),
                 cites := (set e | e in g.cites && e.0 != k && e.1 != k)), 0))
      else Some((g, 0))
    case RecordUpdate(t) =>
      var count := if g.ledger.Some? then g.ledger.value.updateCount else 0;
      Some((g.(ledger := Some(Ledger(t, count + 1))), 0))
    case MergeAuthorWrote(name, id) =>
      var g1 := g.(authors := g.authors + {name});
      if id.Some? && id.value in g.papers then Some((g1.(wrote := g1.wrote + {(name, id.value)}), 0))
      else Some((g1, 0))
    case MergeCategoryHasCategory(c, id) =>
      var g1 := g.(categories := g.categories + {c});
      if id.Some? && id.value in g.papers then Some((g1.(hasCategory := g1.hasCategory + {(id.value, c)}), 0))
      else Some((g1, 0))
    case SetOpenAlexIds(updates, onlyUnset) =>
      Some((g.(papers := SetIds(g.papers, updates, onlyUnset)), MatchCount(g.papers, updates, onlyUnset)))
    case MergeCites(pairs) =>
      Some((g.(cites := g.cites + CitesAdded(g.papers, pairs)), CiteCount(g.papers, pairs)))
  }

  /** No statement leaves a relationship without its endpoints. */
  lemma ApplyPreservesWellFormed(g: Graph, s: Stmt)
    requires WellFormed(g) && Apply(g, s).Some?
    ensures WellFormed(Apply(g, s).value.0)
  {
    var g' := Apply(g, s).value.0;
    match s
    case MergePapers(rows, stamp) =>
      forall k | k in g.papers ensures k in g'.papers {
        MergeRowsKeeps(g.papers, rows, stamp, k);
      }
    case SetOpenAlexIds(_, _) =>
      assert g'.papers.Keys == g.papers.Keys;
    case _ =>
  }

  /** Every row's paper exists after the MERGE. */
  lemma {:induction false} MergeRowsAdds(papers: map<string, Paper>, rows: seq<PaperRow>, stamp: Option<DateTime>, i: nat)
    requires AllKeyed(rows) && i < |rows|
    ensures rows[i].arxivId.value in MergeRows(papers, rows, stamp)
    decreases |rows|
  {
    if i < |rows| - 1 {
      var init := rows[..|rows| - 1];
      assert init[i] == rows[i] && AllKeyed(init);
      MergeRowsAdds(papers, init, stamp, i);
    }
  }

  /** Merging the same rows again only restamps `last_modified`. */
  lemma MergeRowsTwice(papers: map<string, Paper>, rows: seq<PaperRow>, s1: Option<DateTime>, s2: Option<DateTime>)
    requires AllKeyed(rows)
    ensures var p1 := MergeRows(papers, rows, s1);
      var p2 := MergeRows(p1, rows, s2);
      p2.Keys == p1.Keys && forall k :: k in p1 ==> p2[k].(lastModified := None) == p1[k].(lastModified := None)
  {
    var p1 := MergeRows(papers, rows, s1);
    var p2 := MergeRows(p1, rows, s2);
    forall k ensures (k in p2 <==> k in p1) && (k in p1 ==> p2[k].(lastModified := None) == p1[k].(lastModified := None)) {
      MergeRowsEffect(papers, rows, s1, k);
      MergeRowsEffect(p1, rows, s2, k);
    }
  }

  lemma {:induction false} MergeRowsKeeps(papers: map<string, Paper>, rows: seq<PaperRow>, stamp: Option<DateTime>, k: string)
    requires AllKeyed(rows) && k in papers
    ensures k in MergeRows(papers, rows, stamp)
    decreases |rows|
  {
    if rows != [] {
      MergeRowsKeeps(papers, rows[..|rows| - 1], stamp, k);
    }
  }

  // ---------------------------------------------------------------- store

  /** The graph and the outcome of every future write statement: `true` fails it. */
  datatype Store = Store(graph: Graph, faults: seq<bool>)

  datatype Outcome = Done(count: nat) | Failed

  function Tail(faults: seq<bool>): seq<bool> {
    if faults == [] then [] else faults[1..]
  }

  /** `session.run(stmt)`: fails when the oracle says so or Neo4j rejects it; a failure changes nothing. */
  function Run(st: Store, s: Stmt): (r: (Outcome, Store))
    ensures r.1.faults == Tail(st.faults)
    ensures r.0.Failed? <==> (st.faults != [] && st.faults[0]) || Apply(st.graph, s).None?
    ensures r.0.Failed? ==> r.1.graph == st.graph
    ensures r.0.Done? ==> Apply(st.graph, s) == Some((r.1.graph, r.0.count))
  {
    if st.faults != [] && st.faults[0] then (Failed, Store(st.graph, Tail(st.faults)))
    else match Apply(st.graph, s)
      case None => (Failed, Store(st.graph, Tail(st.faults)))
      case Some((g, n)) => (Done(n), Store(g, Tail(st.faults)))
  }

  /** Statements run one after another until the first failure. */
  function RunAll(st: Store, ss: seq<Stmt>): (r: (bool, Store))
    ensures |r.1.faults| <= |st.faults|
    decreases |ss|
  {
    if ss == [] then (true, st)
    else
      var (o, st1) := Run(st, ss[0]);
      if o.Failed? then (false, st1) else RunAll(st1, ss[1..])
  }

  /** The statements of one transaction-less session, sent one after another; the first failure raises. */
  method Execute(st: Store, ss: seq<Stmt>) returns (ok: bool, st': Store)
    ensures (ok, st') == RunAll(st, ss)
  {
    st' := st;
    var i := 0;
    while i < |ss|
      invariant 0 <= i <= |ss|
      invariant RunAll(st, ss) == RunAll(st', ss[i..])
    {
      assert ss[i..][1..] == ss[i + 1..];
      var o;
      o, st' := Run(st', ss[i]).0, Run(st', ss[i]).1;
      if o.Failed? {
        return false, st';
      }
      i := i + 1;
    }
    return true, st';
  }

  /** Running two statement lists in one session is running the first, then the second unless the first failed. */
  lemma {:induction false} RunAllAppend(st: Store, xs: seq<Stmt>, ys: seq<Stmt>)
    ensures RunAll(st, xs + ys) == if RunAll(st, xs).0 then RunAll(RunAll(st, xs).1, ys) else RunAll(st, xs)
    decreases |xs|
  {
    if xs == [] {
      assert xs + ys == ys;
    } else {
      assert (xs + ys)[0] == xs[0] && (xs + ys)[1..] == xs[1..] + ys;
      var (o, st1) := Run(st, xs[0]);
      if o.Done? {
        RunAllAppend(st1, xs[1..], ys);
      }
    }
  }

  /** One more statement after a run that succeeded: the session's result is that statement's. */
  lemma RunAllSnoc(st: Store, xs: seq<Stmt>, s: Stmt)
    requires RunAll(st, xs).0
    ensures RunAll(st, xs + [s]) == (Run(RunAll(st, xs).1, s).0.Done?, Run(RunAll(st, xs).1, s).1)
  {
    RunAllAppend(st, xs, [s]);
    RunAllCons(RunAll(st, xs).1, s, []);
    assert [s] + [] == [s];
  }

  /** A session runs its first statement, and the rest only if that one succeeded. */
  lemma RunAllCons(st: Store, s: Stmt, rest: seq<Stmt>)
    ensures RunAll(st, [s] + rest) == if Run(st, s).0.Done? then RunAll(Run(st, s).1, rest) else (false, Run(st, s).1)
  {
    assert ([s] + rest)[0] == s && ([s] + rest)[1..] == rest;
  }

  /** The graph after statements that all succeed; `None` if Neo4j rejects one. */
  function ApplyAll(g: Graph, ss: seq<Stmt>): Option<Graph>
    decreases |ss|
  {
    if ss == [] then Some(g)
    else match Apply(g, ss[0])
      case None => None
      case Some((g1, _)) => ApplyAll(g1, ss[1..])
  }

  /** Running two statement lists is running the first, then the second on its result. */
  lemma {:induction false} ApplyAllAppend(g: Graph, xs: seq<Stmt>, ys: seq<Stmt>)
    ensures ApplyAll(g, xs + ys) == match ApplyAll(g, xs) case None => None case Some(g1) => ApplyAll(g1, ys)
    decreases |xs|
  {
    if xs == [] {
      assert xs + ys == ys;
    } else {
      assert (xs + ys)[0] == xs[0] && (xs + ys)[1..] == xs[1..] + ys;
      match Apply(g, xs[0])
      case None =>
      case Some((g1, _)) => ApplyAllAppend(g1, xs[1..], ys);
    }
  }

  /** Neo4j refuses a list property holding a null: a title list `['A', None]` rejects the whole MERGE. */
  lemma NullInListRejected(g: Graph, stamp: Option<DateTime>)
    ensures Apply(g, MergePapers([PaperRow(Some("2101.00001"), Many([Some("A"), None]), Scalar(None), Scalar(None),
                                           Scalar(None), None, Scalar(None), Scalar(None), None)], stamp)).None?
  {
    var row := PaperRow(Some("2101.00001"), Many([Some("A"), None]), Scalar(None), Scalar(None),
                        Scalar(None), None, Scalar(None), Scalar(None), None);
    assert !StorableValue(row.title) by { assert row.title.texts[1] == None; }
    assert [row][0] == row;
  }

  /** The paper MERGE of storable rows changes the papers alone. */
  lemma MergePapersEffect(g: Graph, rows: seq<PaperRow>, stamp: Option<DateTime>)
    requires AllStorable(rows)
    ensures ApplyAll(g, [MergePapers(rows, stamp)]) == Some(g.(papers := MergeRows(g.papers, rows, stamp)))
  {
    assert [MergePapers(rows, stamp)][1..] == [];
  }

  /** `UNWIND $authors MERGE (a:Author {name})` adds the names and changes nothing else. */
  lemma MergeAuthorsEffect(g: Graph, names: seq<string>)
    ensures ApplyAll(g, [MergeAuthors(names)]) == Some(g.(authors := g.authors + set i | 0 <= i < |names| :: names[i]))
  {
    assert [MergeAuthors(names)][1..] == [];
  }

  /** `UNWIND $categories MERGE (c:Category {id})` adds the ids and changes nothing else. */
  lemma MergeCategoriesEffect(g: Graph, ids: seq<string>)
    ensures ApplyAll(g, [MergeCategories(ids)]) == Some(g.(categories := g.categories + set i | 0 <= i < |ids| :: ids[i]))
  {
    assert [MergeCategories(ids)][1..] == [];
  }

  /** `UNWIND $paper_ids MATCH (p)<-[r:WROTE]-() DELETE r` removes exactly the WROTE edges into the listed papers. */
  lemma DeleteWroteEffect(g: Graph, ids: seq<Text>)
    ensures ApplyAll(g, [DeleteWrote(ids)]) == Some(g.(wrote := set e | e in g.wrote && e.1 !in Keyed(ids)))
  {
    assert [DeleteWrote(ids)][1..] == [];
  }

  /** Merging WROTE rows whose authors exist: a row adds its edge exactly when its paper exists. */
  lemma MergeWroteEffect(g: Graph, rels: seq<(string, Text)>)
    requires forall i :: 0 <= i < |rels| ==> rels[i].0 in g.authors
    ensures ApplyAll(g, [MergeWrote(rels)])
         == Some(g.(wrote := g.wrote + set i | 0 <= i < |rels| && rels[i].1.Some? && rels[i].1.value in g.papers
                                          :: (rels[i].0, rels[i].1.value)))
  {
    assert [MergeWrote(rels)][1..] == [];
    assert (set i | 0 <= i < |rels| && rels[i].1.Some? && rels[i].0 in g.authors && rels[i].1.value in g.papers :: (rels[i].0, rels[i].1.value))
        == (set i | 0 <= i < |rels| && rels[i].1.Some? && rels[i].1.value in g.papers :: (rels[i].0, rels[i].1.value));
  }

  /** `UNWIND $paper_ids MATCH (p)-[r:HAS_CATEGORY]->() DELETE r` removes exactly the HAS_CATEGORY edges out of the listed papers. */
  lemma DeleteHasCategoryEffect(g: Graph, ids: seq<Text>)
    ensures ApplyAll(g, [DeleteHasCategory(ids)]) == Some(g.(hasCategory := set e | e in g.hasCategory && e.0 !in Keyed(ids)))
  {
    assert [DeleteHasCategory(ids)][1..] == [];
  }

  /** Merging HAS_CATEGORY rows whose categories exist: a row adds its edge exactly when its paper exists. */
  lemma MergeHasCategoryEffect(g: Graph, links: seq<(Text, string)>)
    requires forall i :: 0 <= i < |links| ==> links[i].1 in g.categories
    ensures ApplyAll(g, [MergeHasCategory(links)])
         == Some(g.(hasCategory := g.hasCategory + set i | 0 <= i < |links| && links[i].0.Some? && links[i].0.value in g.papers
                                                  :: (links[i].0.value, links[i].1)))
  {
    assert [MergeHasCategory(links)][1..] == [];
    assert (set i | 0 <= i < |links| && links[i].0.Some? && links[i].0.value in g.papers && links[i].1 in g.categories :: (links[i].0.value, links[i].1))
        == (set i | 0 <= i < |links| && links[i].0.Some? && links[i].0.value in g.papers :: (links[i].0.value, links[i].1));
  }

  /** `MERGE (a:Author {name}) WITH a MATCH (p:Paper {arxiv_id}) MERGE (a)-[:WROTE]->(p)`: the author always, the edge when the paper exists. */
  lemma MergeAuthorWroteEffect(g: Graph, name: string, id: Text)
    ensures ApplyAll(g, [MergeAuthorWrote(name, id)])
         == Some(g.(authors := g.authors + {name},
                    wrote := if id.Some? && id.value in g.papers then g.wrote + {(name, id.value)} else g.wrote))
  {
    assert [MergeAuthorWrote(name, id)][1..] == [];
  }

  /** `MERGE (c:Category {id}) ... MATCH (p:Paper {arxiv_id}) MERGE (p)-[:HAS_CATEGORY]->(c)`: the category always, the edge when the paper exists. */
  lemma MergeCategoryHasCategoryEffect(g: Graph, c: string, id: Text)
    ensures ApplyAll(g, [MergeCategoryHasCategory(c, id)])
         == Some(g.(categories := g.categories + {c},
                    hasCategory := if id.Some? && id.value in g.papers then g.hasCategory + {(id.value, c)} else g.hasCategory))
  {
    assert [MergeCategoryHasCategory(c, id)][1..] == [];
  }

  /** Statements that do not write the ledger leave it as it was, whether they succeed or not. */
  lemma {:induction false} RunAllKeepsLedger(st: Store, ss: seq<Stmt>)
    requires forall s :: s in ss ==> !s.RecordUpdate?
    ensures RunAll(st, ss).1.graph.ledger == st.graph.ledger
    decreases |ss|
  {
    if ss != [] {
      var st1 := Run(st, ss[0]).1;
      assert forall s :: s in ss[1..] ==> s in ss;
      RunAllKeepsLedger(st1, ss[1..]);
    }
  }

  predicate NoFaults(faults: seq<bool>, n: nat) {
    forall i :: 0 <= i < n && i < |faults| ==> !faults[i]
  }

  /** Without faults, running statements is applying them. */
  lemma {:induction false} RunAllFaultFree(st: Store, ss: seq<Stmt>)
    requires NoFaults(st.faults, |ss|)
    ensures var (ok, st') := RunAll(st, ss);
      ok == ApplyAll(st.graph, ss).Some? && (ok ==> st'.graph == ApplyAll(st.graph, ss).value)
    decreases |ss|
  {
    if ss != [] {
      var (o, st1) := Run(st, ss[0]);
      if o.Done? {
        assert NoFaults(st1.faults, |ss[1..]|);
        RunAllFaultFree(st1, ss[1..]);
      }
    }
  }

  /** A batch of statements that failed part-way keeps every statement before the failure. */
  lemma {:induction false} RunAllPrefix(st: Store, ss: seq<Stmt>)
    ensures var (ok, st') := RunAll(st, ss);
      exists n :: 0 <= n <= |ss| && (ok ==> n == |ss|) && ApplyAll(st.graph, ss[..n]) == Some(st'.graph)
    decreases |ss|
  {
    if ss == [] {
      assert ss[..0] == [];
    } else {
      var (o, st1) := Run(st, ss[0]);
      if o.Failed? {
        assert ss[..0] == [];
      } else {
        RunAllPrefix(st1, ss[1..]);
        var (ok, st') := RunAll(st1, ss[1..]);
        var n :| 0 <= n <= |ss[1..]| && (ok ==> n == |ss[1..]|) && ApplyAll(st1.graph, ss[1..][..n]) == Some(st'.graph);
        assert ss[..n + 1][0] == ss[0] && ss[..n + 1][1..] == ss[1..][..n];
      }
    }
  }

  /** `g'` keeps every node and every relationship of `g`. */
  predicate Grows(g: Graph, g': Graph) {
    g.papers.Keys <= g'.papers.Keys && g.authors <= g'.authors && g.categories <= g'.categories
    && g.wrote <= g'.wrote && g.hasCategory <= g'.hasCategory && g.cites <= g'.cites
  }

  /** A statement that deletes nothing: every MERGE and SET. */
  predicate OnlyMerges(s: Stmt) {
    !(s.DeleteWrote? || s.DeleteHasCategory? || s.DetachDeletePaper?)
  }

  lemma ApplyGrows(g: Graph, s: Stmt)
    requires OnlyMerges(s) && Apply(g, s).Some?
    ensures Grows(g, Apply(g, s).value.0)
  {
    var g' := Apply(g, s).value.0;
    match s
    case MergePapers(rows, stamp) =>
      forall k | k in g.papers ensures k in g'.papers {
        MergeRowsKeeps(g.papers, rows, stamp, k);
      }
    case SetOpenAlexIds(_, _) =>
      assert g'.papers.Keys == g.papers.Keys;
    case _ =>
  }

  /** Statements that delete nothing keep every node and relationship, however far they get. */
  lemma {:induction false} RunAllGrows(st: Store, ss: seq<Stmt>)
    requires forall s :: s in ss ==> OnlyMerges(s)
    ensures Grows(st.graph, RunAll(st, ss).1.graph)
    decreases |ss|
  {
    if ss != [] {
      var (o, st1) := Run(st, ss[0]);
      if o.Done? {
        ApplyGrows(st.graph, ss[0]);
        assert forall s :: s in ss[1..] ==> s in ss;
        RunAllGrows(st1, ss[1..]);
      }
    }
  }

  /** Without a `last_modified` stamp, merging the same rows again changes no paper. */
  lemma MergeRowsUnstampedTwice(papers: map<string, Paper>, rows: seq<PaperRow>)
    requires AllKeyed(rows)
    ensures MergeRows(MergeRows(papers, rows, None), rows, None) == MergeRows(papers, rows, None)
  {
    var p1 := MergeRows(papers, rows, None);
    var p2 := MergeRows(p1, rows, None);
    forall k ensures Lookup(p2, k) == Lookup(p1, k) {
      MergeRowsEffect(papers, rows, None, k);
      MergeRowsEffect(p1, rows, None, k);
    }
    assert p2.Keys == p1.Keys by {
      forall k ensures k in p2 <==> k in p1 {
        assert Lookup(p2, k) == Lookup(p1, k);
      }
    }
    forall k | k in p2 ensures p2[k] == p1[k] {
      assert Lookup(p2, k) == Lookup(p1, k);
    }
  }

  // ---------------------------------------------------------------- properties

  /** DETACH DELETE removes the paper and every relationship touching it, and nothing else. */
  lemma DetachDeleteEffect(g: Graph, k: string)
    requires k in g.papers
    ensures var g' := Apply(g, DetachDeletePaper(Some(k))).value.0;
      g'.papers == g.papers - {k}
      && (forall e :: e in g'.wrote <==> e in g.wrote && e.1 != k)
      && (forall e :: e in g'.hasCategory <==> e in g.hasCategory && e.0 != k)
      && (forall e :: e in g'.cites <==> e in g.cites && e.0 != k && e.1 != k)
      && g'.authors == g.authors && g'.categories == g.categories && g'.ledger == g.ledger
  {
  }

  /** Deleting a paper that is not there leaves the graph as it was. */
  lemma DetachDeleteMissing(g: Graph, id: Text)
    requires id.None? || id.value !in g.papers
    ensures Apply(g, DetachDeletePaper(id)) == Some((g, 0))
  {
  }

  /** With `WHERE p.openalex_id IS NULL` an id once set is never replaced. */
  lemma SetOpenAlexIdsKeepsExisting(g: Graph, updates: seq<DoiUpdate>, k: string)
    requires k in g.papers && g.papers[k].openalexId.Some?
    ensures var g' := Apply(g, SetOpenAlexIds(updates, true)).value.0;
      k in g'.papers && g'.papers[k] == g.papers[k]
  {
  }

  /** A paper gets the id of the last row carrying its DOI, and only its id changes. */
  lemma SetOpenAlexIdsEffect(g: Graph, updates: seq<DoiUpdate>, onlyUnset: bool, k: string)
    requires k in g.papers
    ensures var p := g.papers[k];
      var g' := Apply(g, SetOpenAlexIds(updates, onlyUnset)).value.0;
      k in g'.papers
      && g'.papers[k] == p.(openalexId := g'.papers[k].openalexId)
      && (p.doi.Some? && Eligible(p, p.doi.value, onlyUnset) && HasDoiRow(updates, p.doi.value)
          ==> g'.papers[k].openalexId == LastIdFor(updates, p.doi.value))
      && (!(p.doi.Some? && Eligible(p, p.doi.value, onlyUnset) && HasDoiRow(updates, p.doi.value))
          ==> g'.papers[k].openalexId == p.openalexId)
  {
    var p := g.papers[k];
    if p.doi.Some? {
      LastIdForFound(updates, p.doi.value);
    }
  }

  lemma {:induction false} LastIdForFound(updates: seq<DoiUpdate>, doi: string)
    ensures LastIdFor(updates, doi).Some? <==> HasDoiRow(updates, doi)
    ensures LastIdFor(updates, doi).Some? ==>
      exists i :: 0 <= i < |updates| && updates[i] == DoiUpdate(doi, LastIdFor(updates, doi).value)
        && forall j :: i < j < |updates| ==> updates[j].doi != doi
    decreases |updates|
  {
    if updates != [] {
      var init := updates[..|updates| - 1];
      LastIdForFound(init, doi);
      if updates[|updates| - 1].doi != doi {
        if HasDoiRow(updates, doi) {
          var i :| 0 <= i < |updates| && updates[i].doi == doi;
          assert init[i].doi == doi;
        }
        if LastIdFor(init, doi).Some? {
          var i :| 0 <= i < |init| && init[i] == DoiUpdate(doi, LastIdFor(init, doi).value)
            && forall j :: i < j < |init| ==> init[j].doi != doi;
          assert updates[i] == init[i];
        }
      }
    }
  }

  /** A CITES pair is present afterwards exactly when it was before or a row matches both ends. */
  lemma MergeCitesEffect(g: Graph, pairs: seq<(string, string)>, a: string, b: string)
    ensures var g' := Apply(g, MergeCites(pairs)).value.0;
      (a, b) in g'.cites <==>
        (a, b) in g.cites || (a in g.papers && b in g.papers && CitePairFor(g.papers, pairs, a, b))
  {
  }

  /** The ledger counts every recorded run and holds the latest time. */
  lemma RecordUpdateEffect(g: Graph, t: DateTime)
    ensures var g' := Apply(g, RecordUpdate(t)).value.0;
      g'.ledger == Some(Ledger(t, (if g.ledger.Some? then g.ledger.value.updateCount else 0) + 1))
      && g'.papers == g.papers && g'.wrote == g.wrote && g'.hasCategory == g.hasCategory
  {
  }
}
