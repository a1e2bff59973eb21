/**
 * The first bulk loader: it reads the arXiv metadata snapshot line by line and
 * writes each record on its own, one statement for the paper, then one per
 * author and one per category, each in a session of its own. A line whose
 * writing raises is skipped and not counted; what it wrote before the error
 * stays.
 */
module ArxivLoader {
  import opened Common
  import opened Dates
  import opened Graph
  import opened ArxivRecords

  // ---------------------------------------------------------------- one record

  /** `create_paper`'s MERGE of one row, without `last_modified`. */
  function PaperStatement(p: PaperRecord): Stmt {
    MergePapers([RowOf(p)], None)
  }

  /** One `MERGE (a:Author) ... MERGE (a)-[:WROTE]->(p)` per kept author name, in order. */
  function AuthorStatements(names: seq<string>, id: Text): (r: seq<Stmt>)
    ensures |r| == |names|
    decreases |names|
  {
    if names == [] then [] else AuthorStatements(names[..|names| - 1], id) + [MergeAuthorWrote(names[|names| - 1], id)]
  }

  /** One `MERGE (c:Category) ... MERGE (p)-[:HAS_CATEGORY]->(c)` per category token, in order. */
  function CategoryStatements(cats: seq<string>, id: Text): (r: seq<Stmt>)
    ensures |r| == |cats|
    decreases |cats|
  {
    if cats == [] then [] else CategoryStatements(cats[..|cats| - 1], id) + [MergeCategoryHasCategory(cats[|cats| - 1], id)]
  }

  /** Every statement a record sends, in the order the three calls send them. */
  function RecordStatements(p: PaperRecord): seq<Stmt> {
    [PaperStatement(p)]
    + AuthorStatements(AuthorNames(p.authorsParsed), p.id)
    + CategoryStatements(CategoryIds(p.categories), p.id)
  }

  /**
   * The three calls of one line: `false` when one raises, either at the date
   * conversion (before any statement) or at a statement (the ones before it
   * kept).
   */
  function RecordRun(st: Store, p: PaperRecord): (bool, Store) {
    if !DateOk(p) then (false, st) else RunAll(st, RecordStatements(p))
  }

  /** `create_paper`. */
  method CreatePaper(st: Store, p: PaperRecord) returns (ok: bool, st': Store)
    ensures (ok, st') == if DateOk(p) then RunAll(st, [PaperStatement(p)]) else (false, st)
  {
    if p.updateDate.Many? && p.updateDate.texts != [] {
      // `strptime` on a list raises
      return false, st;
    }
    ok, st' := Execute(st, [PaperStatement(p)]);
  }

  /** `create_authors_and_relationships`: the statements one by one, the first failure raising. */
  method CreateAuthorsAndRelationships(st: Store, p: PaperRecord) returns (ok: bool, st': Store)
    ensures (ok, st') == RunAll(st, AuthorStatements(AuthorNames(p.authorsParsed), p.id))
  {
    var authors := p.authorsParsed;
    st' := st;
    assert authors[0..] == authors;
    for i := 0 to |authors|
      invariant RunAll(st, AuthorStatements(AuthorNames(authors), p.id)) == RunAll(st', AuthorStatements(AuthorNames(authors[i..]), p.id))
    {
      AuthorsFrom(authors, i, p.id);
      ghost var rest := AuthorStatements(AuthorNames(authors[i + 1..]), p.id);
      var name := FullName(authors[i]);
      if name != "" {
        var s := MergeAuthorWrote(name, p.id);
        assert AuthorStatements(AuthorNames(authors[i..]), p.id) == [s] + rest;
        RunAllCons(st', s, rest);
        ghost var before := st';
        var r := Run(st', s);
        st' := r.1;
        if r.0.Failed? {
          return false, st';
        }
        assert r.0.Done?;
        assert RunAll(before, [s] + rest) == RunAll(st', rest);
      } else {
        assert AuthorStatements(AuthorNames(authors[i..]), p.id) == rest;
      }
      assert RunAll(st, AuthorStatements(AuthorNames(authors), p.id)) == RunAll(st', rest);
    }
    assert authors[|authors|..] == [];
    ok := true;
  }

  /** The statements for two runs of names are the statements for each, in order. */
  lemma {:induction false} AuthorStatementsAppend(xs: seq<string>, ys: seq<string>, id: Text)
    ensures AuthorStatements(xs + ys, id) == AuthorStatements(xs, id) + AuthorStatements(ys, id)
    decreases |ys|
  {
    if ys == [] {
      assert xs + ys == xs;
    } else {
      var init := ys[..|ys| - 1];
      assert (xs + ys)[..|xs + ys| - 1] == xs + init;
      assert (xs + ys)[|xs + ys| - 1] == ys[|ys| - 1];
      AuthorStatementsAppend(xs, init, id);
    }
  }

  /** The statements from author entry `i` on: entry `i`'s, if its name is not empty, then the rest. */
  lemma AuthorsFrom(authors: seq<seq<string>>, i: nat, id: Text)
    requires i < |authors|
    ensures AuthorStatements(AuthorNames(authors[i..]), id)
         == (if FullName(authors[i]) != "" then [MergeAuthorWrote(FullName(authors[i]), id)] else [])
            + AuthorStatements(AuthorNames(authors[i + 1..]), id)
  {
    var rest := AuthorNames(authors[i + 1..]);
    AuthorNamesFrom(authors, i);
    if FullName(authors[i]) != "" {
      var name := FullName(authors[i]);
      assert AuthorNames(authors[i..]) == [name] + rest;
      AuthorStatementsAppend([name], rest, id);
      assert AuthorStatements([name], id) == [MergeAuthorWrote(name, id)] by {
        assert [name][..0] == [];
      }
    } else {
      assert AuthorNames(authors[i..]) == rest;
    }
  }

  /** `create_categories_and_relationships`: the statements one by one, the first failure raising. */
  method CreateCategoriesAndRelationships(st: Store, p: PaperRecord) returns (ok: bool, st': Store)
    ensures (ok, st') == RunAll(st, CategoryStatements(CategoryIds(p.categories), p.id))
  {
    var cats := CategoryIds(p.categories);
    st' := st;
    var i := 0;
    while i < |cats|
      invariant 0 <= i <= |cats|
      invariant RunAll(st, CategoryStatements(cats[..i], p.id)) == (true, st')
    {
      assert cats[..i + 1][..i] == cats[..i];
      assert CategoryStatements(cats[..i + 1], p.id)
          == CategoryStatements(cats[..i], p.id) + [MergeCategoryHasCategory(cats[i], p.id)];
      RunAllSnoc(st, CategoryStatements(cats[..i], p.id), MergeCategoryHasCategory(cats[i], p.id));
      var r := Run(st', MergeCategoryHasCategory(cats[i], p.id));
      st' := r.1;
      if r.0.Failed? {
        LaterCategoriesIgnored(st, cats, i + 1, p.id);
        return false, st';
      }
      i := i + 1;
    }
    assert cats[..i] == cats;
    ok := true;
  }

  /** Once a category statement has failed, the tokens after it do not matter. */
  lemma {:induction false} LaterCategoriesIgnored(st: Store, cats: seq<string>, n: nat, id: Text)
    requires n <= |cats|
    requires !RunAll(st, CategoryStatements(cats[..n], id)).0
    ensures RunAll(st, CategoryStatements(cats, id)) == RunAll(st, CategoryStatements(cats[..n], id))
    decreases |cats| - n
  {
    if n == |cats| {
      assert cats[..n] == cats;
    } else {
      assert cats[..n + 1][..n] == cats[..n];
      RunAllAppend(st, CategoryStatements(cats[..n], id), [MergeCategoryHasCategory(cats[n], id)]);
      LaterCategoriesIgnored(st, cats, n + 1, id);
    }
  }

  /** The three calls of one line, in order. */
  method LoadRecord(st: Store, p: PaperRecord) returns (ok: bool, st': Store)
    ensures (ok, st') == RecordRun(st, p)
  {
    var ss1 := [PaperStatement(p)];
    var ss2 := AuthorStatements(AuthorNames(p.authorsParsed), p.id);
    var ss3 := CategoryStatements(CategoryIds(p.categories), p.id);
    ok, st' := CreatePaper(st, p);
    if !ok {
      if DateOk(p) {
        RunAllAppend(st, ss1, ss2);
        RunAllAppend(st, ss1 + ss2, ss3);
      }
      return;
    }
    RunAllAppend(st, ss1, ss2);
    RunAllAppend(st, ss1 + ss2, ss3);
    var st1 := st';
    ok, st' := CreateAuthorsAndRelationships(st1, p);
    if !ok {
      return;
    }
    ok, st' := CreateCategoriesAndRelationships(st', p);
  }

  // ---------------------------------------------------------------- record effects

  /**
   * The graph a record's statements leave with paper `k` present: its row
   * merged without a timestamp, its authors and categories added, and one
   * edge to each of them.
   */
  function Added(g: Graph, p: PaperRecord): Graph
    requires p.id.Some?
  {
    var k := p.id.value;
    var names := AuthorNames(p.authorsParsed);
    var cats := CategoryIds(p.categories);
    g.(papers := g.papers[k := UpsertNode(Lookup(g.papers, k), RowOf(p), None)],
       authors := g.authors + (set n | n in names),
       categories := g.categories + (set c | c in cats),
       wrote := g.wrote + (set n | n in names :: (n, k)),
       hasCategory := g.hasCategory + (set c | c in cats :: (k, c)))
  }

  /** The author statements for an existing paper add the names and one WROTE edge each. */
  lemma {:induction false} AuthorStatementsEffect(g: Graph, names: seq<string>, k: string)
    requires k in g.papers
    ensures ApplyAll(g, AuthorStatements(names, Some(k)))
         == Some(g.(authors := g.authors + (set n | n in names), wrote := g.wrote + (set n | n in names :: (n, k))))
    decreases |names|
  {
    if names == [] {
      assert (set n | n in names) == {} && (set n | n in names :: (n, k)) == {};
      assert g.(authors := g.authors + {}, wrote := g.wrote + {}) == g;
    } else {
      var init := names[..|names| - 1];
      var last := names[|names| - 1];
      assert names == init + [last];
      AuthorStatementsEffect(g, init, k);
      var g1 := g.(authors := g.authors + (set n | n in init), wrote := g.wrote + (set n | n in init :: (n, k)));
      ApplyAllAppend(g, AuthorStatements(init, Some(k)), [MergeAuthorWrote(last, Some(k))]);
      MergeAuthorWroteEffect(g1, last, Some(k));
      assert AuthorStatements(names, Some(k)) == AuthorStatements(init, Some(k)) + [MergeAuthorWrote(last, Some(k))];
      assert ApplyAll(g, AuthorStatements(init, Some(k))) == Some(g1);
      assert ApplyAll(g, AuthorStatements(names, Some(k))) == ApplyAll(g1, [MergeAuthorWrote(last, Some(k))]);
      assert (set n | n in names) == (set n | n in init) + {last};
      assert (set n | n in names :: (n, k)) == (set n | n in init :: (n, k)) + {(last, k)};
      assert g1.authors + {last} == g.authors + (set n | n in names);
      assert g1.wrote + {(last, k)} == g.wrote + (set n | n in names :: (n, k));
    }
  }

  /** The category statements for an existing paper add the tokens and one HAS_CATEGORY edge each. */
  lemma {:induction false} CategoryStatementsEffect(g: Graph, cats: seq<string>, k: string)
    requires k in g.papers
    ensures ApplyAll(g, CategoryStatements(cats, Some(k)))
         == Some(g.(categories := g.categories + (set c | c in cats), hasCategory := g.hasCategory + (set c | c in cats :: (k, c))))
    decreases |cats|
  {
    if cats == [] {
      assert (set c | c in cats) == {} && (set c | c in cats :: (k, c)) == {};
      assert g.(categories := g.categories + {}, hasCategory := g.hasCategory + {}) == g;
    } else {
      var init := cats[..|cats| - 1];
      var last := cats[|cats| - 1];
      assert cats == init + [last];
      CategoryStatementsEffect(g, init, k);
      var g1 := g.(categories := g.categories + (set c | c in init), hasCategory := g.hasCategory + (set c | c in init :: (k, c)));
      ApplyAllAppend(g, CategoryStatements(init, Some(k)), [MergeCategoryHasCategory(last, Some(k))]);
      MergeCategoryHasCategoryEffect(g1, last, Some(k));
      assert CategoryStatements(cats, Some(k)) == CategoryStatements(init, Some(k)) + [MergeCategoryHasCategory(last, Some(k))];
      assert ApplyAll(g, CategoryStatements(init, Some(k))) == Some(g1);
      assert ApplyAll(g, CategoryStatements(cats, Some(k))) == ApplyAll(g1, [MergeCategoryHasCategory(last, Some(k))]);
      assert (set c | c in cats) == (set c | c in init) + {last};
      assert (set c | c in cats :: (k, c)) == (set c | c in init :: (k, c)) + {(k, last)};
      assert g1.categories + {last} == g.categories + (set c | c in cats);
      assert g1.hasCategory + {(k, last)} == g.hasCategory + (set c | c in cats :: (k, c));
    }
  }

  /** The statements of a record that can be stored succeed in the graph and leave `Added`. */
  lemma RecordStatementsEffect(g: Graph, p: PaperRecord)
    requires StorableRecord(p)
    ensures ApplyAll(g, RecordStatements(p)) == Some(Added(g, p))
  {
    var k := p.id.value;
    var ss1 := [PaperStatement(p)];
    var ss2 := AuthorStatements(AuthorNames(p.authorsParsed), p.id);
    var ss3 := CategoryStatements(CategoryIds(p.categories), p.id);
    var r := Added(g, p);
    var g1 := g.(papers := r.papers);
    var g2 := g1.(authors := r.authors, wrote := r.wrote);
    assert [RowOf(p)][..0] == [];
    assert AllStorable([RowOf(p)]);
    MergePapersEffect(g, [RowOf(p)], None);
    AuthorStatementsEffect(g1, AuthorNames(p.authorsParsed), k);
    CategoryStatementsEffect(g2, CategoryIds(p.categories), k);
    assert g2.(categories := r.categories, hasCategory := r.hasCategory) == r;
    ApplyAllAppend(g, ss1, ss2);
    ApplyAllAppend(g, ss1 + ss2, ss3);
  }

  /** A line that went through wrote its paper, authors and categories: the graph is `Added`. */
  lemma RecordRunSucceeded(st: Store, p: PaperRecord)
    requires RecordRun(st, p).0
    ensures DateOk(p) && StorableRecord(p)
    ensures RecordRun(st, p).1.graph == Added(st.graph, p)
  {
    var ss := RecordStatements(p);
    var g' := RecordRun(st, p).1.graph;
    RunAllPrefix(st, ss);
    assert ss[..|ss|] == ss;
    assert ApplyAll(st.graph, ss) == Some(g');
    assert ss[0] == PaperStatement(p);
    assert Apply(st.graph, ss[0]).Some?;
    assert [RowOf(p)][0] == RowOf(p);
    RecordStatementsEffect(st.graph, p);
  }

  /**
   * When the database does not fail, a line goes through exactly when its
   * date does not raise and its record can be stored: it has an id and no
   * list field holding a null.
   */
  lemma RecordRunFaultFree(st: Store, p: PaperRecord)
    requires NoFaults(st.faults, |RecordStatements(p)|)
    ensures RecordRun(st, p).0 <==> DateOk(p) && StorableRecord(p)
  {
    if DateOk(p) {
      var ss := RecordStatements(p);
      RunAllFaultFree(st, ss);
      if StorableRecord(p) {
        RecordStatementsEffect(st.graph, p);
      } else {
        assert ss[0] == PaperStatement(p);
        assert [RowOf(p)][0] == RowOf(p);
      }
    }
  }

  /**
   * A line that raises at its first author leaves its paper written and no
   * new WROTE edge: the line is skipped, the paper stays without its edges.
   */
  lemma PaperWithoutEdges(st: Store, p: PaperRecord)
    requires DateOk(p) && StorableRecord(p) && AuthorNames(p.authorsParsed) != []
    requires |st.faults| >= 2 && !st.faults[0] && st.faults[1]
    ensures var (ok, st') := RecordRun(st, p);
      !ok && p.id.value in st'.graph.papers && st'.graph.wrote == st.graph.wrote
  {
    var ss1 := [PaperStatement(p)];
    var ss2 := AuthorStatements(AuthorNames(p.authorsParsed), p.id);
    var ss3 := CategoryStatements(CategoryIds(p.categories), p.id);
    RunAllAppend(st, ss1, ss2);
    RunAllAppend(st, ss1 + ss2, ss3);
    assert [RowOf(p)][..0] == [];
    assert ss1[1..] == [];
    var st1 := RunAll(st, ss1).1;
    assert st1.faults == st.faults[1..];
    assert ss2[0] == MergeAuthorWrote(AuthorNames(p.authorsParsed)[0], p.id) by {
      FirstAuthorStatement(AuthorNames(p.authorsParsed), p.id);
    }
  }

  lemma {:induction false} FirstAuthorStatement(names: seq<string>, id: Text)
    requires names != []
    ensures AuthorStatements(names, id)[0] == MergeAuthorWrote(names[0], id)
    decreases |names|
  {
    if |names| > 1 {
      FirstAuthorStatement(names[..|names| - 1], id);
    }
  }

  /** Loading the same record again after it went through changes nothing at all. */
  lemma ReloadIdempotent(st: Store, p: PaperRecord)
    requires RecordRun(st, p).0
    requires RecordRun(RecordRun(st, p).1, p).0
    ensures RecordRun(RecordRun(st, p).1, p).1.graph == RecordRun(st, p).1.graph
  {
    var st1 := RecordRun(st, p).1;
    RecordRunSucceeded(st, p);
    RecordRunSucceeded(st1, p);
  }

  /** Whatever happens, a line deletes nothing. */
  lemma RecordRunGrows(st: Store, p: PaperRecord)
    ensures Grows(st.graph, RecordRun(st, p).1.graph)
  {
    if DateOk(p) {
      RecordStatementsOnlyMerge(p);
      RunAllGrows(st, RecordStatements(p));
    }
  }

  lemma RecordStatementsOnlyMerge(p: PaperRecord)
    ensures forall s :: s in RecordStatements(p) ==> OnlyMerges(s)
  {
    forall s | s in RecordStatements(p) ensures OnlyMerges(s) {
      var ss2 := AuthorStatements(AuthorNames(p.authorsParsed), p.id);
      var ss3 := CategoryStatements(CategoryIds(p.categories), p.id);
      if s in ss2 {
        AuthorStatementsShape(AuthorNames(p.authorsParsed), p.id, s);
      } else if s in ss3 {
        CategoryStatementsShape(CategoryIds(p.categories), p.id, s);
      }
    }
  }

  lemma {:induction false} AuthorStatementsShape(names: seq<string>, id: Text, s: Stmt)
    requires s in AuthorStatements(names, id)
    ensures s.MergeAuthorWrote?
    decreases |names|
  {
    if s != MergeAuthorWrote(names[|names| - 1], id) {
      AuthorStatementsShape(names[..|names| - 1], id, s);
    }
  }

  lemma {:induction false} CategoryStatementsShape(cats: seq<string>, id: Text, s: Stmt)
    requires s in CategoryStatements(cats, id)
    ensures s.MergeCategoryHasCategory?
    decreases |cats|
  {
    if s != MergeCategoryHasCategory(cats[|cats| - 1], id) {
      CategoryStatementsShape(cats[..|cats| - 1], id, s);
    }
  }

  // ---------------------------------------------------------------- the file

  /** The loop's state: the store, the records counted and whether it has broken out. */
  datatype LoadState = LoadState(st: Store, count: nat, stopped: bool)

  /**
   * One line: a record is written; when that went through it is counted and
   * the limit checked, otherwise `except Exception: continue` skips it.
   */
  function LineStep(s: LoadState, line: Line, limit: Option<int>,
                    record: (Store, PaperRecord) -> (bool, Store)): LoadState
  {
    if s.stopped || line.Malformed? then s
    else
      var r := record(s.st, line.paper);
      if r.0 then LoadState(r.1, s.count + 1, LimitReached(limit, s.count + 1))
      else LoadState(r.1, s.count, false)
  }

  /** The loop after the first `n` lines; once it has broken out, further lines are not read. */
  function LoadLines(st: Store, lines: seq<Line>, limit: Option<int>,
                     record: (Store, PaperRecord) -> (bool, Store), n: nat): LoadState
    requires n <= |lines|
  {
    if n == 0 then LoadState(st, 0, false)
    else LineStep(LoadLines(st, lines, limit, record, n - 1), lines[n - 1], limit, record)
  }

  lemma LoadLinesStep(st: Store, lines: seq<Line>, limit: Option<int>,
                      record: (Store, PaperRecord) -> (bool, Store), n: nat)
    requires 0 < n <= |lines|
    ensures LoadLines(st, lines, limit, record, n)
         == LineStep(LoadLines(st, lines, limit, record, n - 1), lines[n - 1], limit, record)
  {
  }

  /** The loader's three calls, as the loop's step. */
  function Record(): (Store, PaperRecord) -> (bool, Store) {
    (st: Store, p: PaperRecord) => RecordRun(st, p)
  }

  /** `load_arxiv_data` over the lines of the file: the records counted and the store left. */
  method LoadArxivData(st: Store, lines: seq<Line>, limit: Option<int>) returns (count: nat, st': Store)
    ensures count == LoadLines(st, lines, limit, Record(), |lines|).count
    ensures st' == LoadLines(st, lines, limit, Record(), |lines|).st
  {
    st' := st;
    count := 0;
    var stopped := false;
    var i := 0;
    while i < |lines| && !stopped
      invariant 0 <= i <= |lines|
      invariant LoadLines(st, lines, limit, Record(), i) == LoadState(st', count, stopped)
    {
      LoadLinesStep(st, lines, limit, Record(), i + 1);
      st', count, stopped := ReadLine(st', count, lines[i], limit);
      i := i + 1;
    }
    LoadLinesStopped(st, lines, limit, Record(), i, |lines|);
  }

  /** One line of the loop, before it has broken out. */
  method ReadLine(st: Store, count: nat, line: Line, limit: Option<int>) returns (st': Store, count': nat, stopped: bool)
    ensures LoadState(st', count', stopped) == LineStep(LoadState(st, count, false), line, limit, Record())
  {
    st', count', stopped := st, count, false;
    if line.Decoded? {
      var ok;
      ok, st' := LoadRecord(st, line.paper);
      assert (ok, st') == Record()(st, line.paper);
      if ok {
        count' := count + 1;
        stopped := LimitReached(limit, count');
      }
    }
  }

  // ---------------------------------------------------------------- loop properties

  /** Once the loop has broken out, reading further changes nothing. */
  lemma {:induction false} LoadLinesStopped(st: Store, lines: seq<Line>, limit: Option<int>,
                                             record: (Store, PaperRecord) -> (bool, Store), n: nat, m: nat)
    requires n <= m <= |lines|
    requires n == m || LoadLines(st, lines, limit, record, n).stopped
    ensures LoadLines(st, lines, limit, record, m) == LoadLines(st, lines, limit, record, n)
    decreases m
  {
    if m > n {
      LoadLinesStopped(st, lines, limit, record, n, m - 1);
    }
  }

  /**
   * Only records that went through are counted, so the count never exceeds
   * the records decoded nor a positive limit, and the loop breaks out only at
   * the limit.
   */
  lemma {:induction false} LoadCount(st: Store, lines: seq<Line>, limit: Option<int>,
                                      record: (Store, PaperRecord) -> (bool, Store), n: nat)
    requires n <= |lines|
    ensures var s := LoadLines(st, lines, limit, record, n);
      s.count <= |DecodedUpTo(lines, n)|
      && (s.stopped ==> LimitReached(limit, s.count))
      && (limit.Some? && limit.value >= 1 ==> s.count <= limit.value && (!s.stopped ==> s.count < limit.value))
    decreases n
  {
    if n > 0 {
      LoadCount(st, lines, limit, record, n - 1);
    }
  }

  /** When every record goes through, every record decoded before the limit is counted. */
  lemma {:induction false} LoadCountAll(st: Store, lines: seq<Line>, limit: Option<int>,
                                         record: (Store, PaperRecord) -> (bool, Store), n: nat)
    requires n <= |lines|
    requires forall s: Store, p: PaperRecord :: record(s, p).0
    ensures !LoadLines(st, lines, limit, record, n).stopped ==> LoadLines(st, lines, limit, record, n).count == |DecodedUpTo(lines, n)|
    decreases n
  {
    if n > 0 {
      LoadCountAll(st, lines, limit, record, n - 1);
    }
  }

  /** A step that deletes nothing makes a load that deletes nothing. */
  lemma {:induction false} LoadLinesGrows(st: Store, lines: seq<Line>, limit: Option<int>,
                                           record: (Store, PaperRecord) -> (bool, Store), n: nat)
    requires n <= |lines|
    requires forall s: Store, p: PaperRecord :: Grows(s.graph, record(s, p).1.graph)
    ensures Grows(st.graph, LoadLines(st, lines, limit, record, n).st.graph)
    decreases n
  {
    if n > 0 {
      LoadLinesGrows(st, lines, limit, record, n - 1);
    }
  }

  /** The first loader never removes a node or a relationship. */
  lemma LoadGrows(st: Store, lines: seq<Line>, limit: Option<int>)
    ensures Grows(st.graph, LoadLines(st, lines, limit, Record(), |lines|).st.graph)
  {
    forall s: Store, p: PaperRecord ensures Grows(s.graph, Record()(s, p).1.graph) {
      RecordRunGrows(s, p);
    }
    LoadLinesGrows(st, lines, limit, Record(), |lines|);
  }
}
