/**
 * The incremental updater: it reads the last update time from the graph,
 * harvests the records changed since then, converts each harvested record
 * into a paper record, deletes the papers the repository reports deleted,
 * upserts the others batch by batch and, once the harvest has run to its
 * end, records the run in the `UpdateLog` ledger.
 */
module ArxivUpdater {
  import opened Common
  import opened Dates
  import opened Graph
  import opened ArxivRecords
  import opened OaiPmh

  // ---------------------------------------------------------------- last update

  /** Every timestamp the graph holds is one Python can represent. */
  predicate TimesValid(g: Graph) {
    (g.ledger.Some? ==> ValidDateTime(g.ledger.value.lastUpdateTime))
    && forall k :: k in g.papers && g.papers[k].updateDate.Some? ==> ValidDateTime(g.papers[k].updateDate.value)
  }

  /** The non-null `update_date` values of the papers. */
  function PaperDates(g: Graph): set<DateTime> {
    set k | k in g.papers && g.papers[k].updateDate.Some? :: g.papers[k].updateDate.value
  }

  /**
   * `get_last_update_timestamp`: the ledger's time when there is a ledger,
   * otherwise the latest paper `update_date`, otherwise a week before `now`;
   * `None` where `now - timedelta(days=7)` overflows.
   */
  function LastUpdateTimestamp(g: Graph, now: DateTime): (r: Option<DateTime>)
    requires TimesValid(g) && ValidDateTime(now)
    ensures g.ledger.Some? ==> r == Some(g.ledger.value.lastUpdateTime)
    ensures g.ledger.None? && PaperDates(g) != {} ==>
              r.Some? && r.value in PaperDates(g) && forall t :: t in PaperDates(g) ==> NotAfter(t, r.value)
    ensures g.ledger.None? && PaperDates(g) == {} ==> r == MinusDays(now, 7)
    ensures r.Some? ==> ValidDateTime(r.value)
  {
    if g.ledger.Some? then Some(g.ledger.value.lastUpdateTime)
    else
      var latest := Latest(PaperDates(g));
      if latest.Some? then latest else MinusDays(now, 7)
  }

  /** The time a run records is the time the next run harvests from. */
  lemma LedgerDrivesNextRun(g: Graph, t: DateTime, now: DateTime)
    requires TimesValid(g) && ValidDateTime(t) && ValidDateTime(now)
    ensures var g' := Apply(g, RecordUpdate(t)).value.0;
      TimesValid(g') && LastUpdateTimestamp(g', now) == Some(t)
  {
  }

  // ---------------------------------------------------------------- conversion

  /** `creator.strip().split()` turned into an `authors_parsed` entry: surname last, given names before it. */
  function CreatorEntry(creator: string): Option<seq<string>> {
    var ws := Words(Strip(creator));
    if |ws| >= 2 then Some([ws[|ws| - 1], Join(ws[..|ws| - 1], " "), ""])
    else if |ws| == 1 then Some([ws[0], "", ""])
    else None
  }

  /** The entry of one element of a `creator` list; a null element has made `', '.join` raise already. */
  function CreatorItemEntry(t: Text): Option<seq<string>> {
    if t.Some? then CreatorEntry(t.value) else None
  }

  predicate AllPresent(ts: seq<Text>) {
    forall i :: 0 <= i < |ts| ==> ts[i].Some?
  }

  /** `' '.join(s)` over the characters of a string. */
  function SpacedChars(s: string): string {
    Join(seq(|s|, i requires 0 <= i < |s| => [s[i]]), " ")
  }

  /** `' '.join(oai_record.get('sets', []))`; `None` where the join raises. */
  function SetsCategories(v: Option<Value>): Option<string> {
    match v
    case None => Some("")
    case Some(Many(ts)) => if AllPresent(ts) then Some(Join(seq(|ts|, i requires 0 <= i < |ts| => ts[i].value), " ")) else None
    case Some(Scalar(t)) => if t.Some? then Some(SpacedChars(t.value)) else None
  }

  /** The record's arXiv id: the `arxiv_id` field when it is a single text. */
  function IdOf(rec: OaiRecord): Text {
    match Get(rec, "arxiv_id")
    case Some(Scalar(t)) => t
    case _ => None
  }

  function GetOr(rec: OaiRecord, key: string, default: Value): Value {
    if key in rec then rec[key] else default
  }

  const Empty: Value := Scalar(Some(""))

  /** The paper record of a deleted harvested record: its id and the deleted status. */
  function DeletedPaper(id: Text): PaperRecord {
    PaperRecord(Some("deleted"), id, Empty, Empty, Empty, Scalar(None), None, Scalar(None), Scalar(None),
                Empty, [], Some(""))
  }

  /**
   * `convert_oai_record_to_paper_data`: the deleted form, or the Dublin Core
   * fields mapped onto the paper schema with `authors_parsed` from the
   * creators; `None` where the conversion raises.
   */
  function Converted(rec: OaiRecord): Option<PaperRecord> {
    if Get(rec, "status") == Some(Scalar(Some("deleted"))) then Some(DeletedPaper(IdOf(rec)))
    else
      var cats := SetsCategories(Get(rec, "sets"));
      var creators := GetOr(rec, "creator", Many([]));
      var authors: Option<seq<seq<string>>> :=
        match creators
        case Many(ts) => if AllPresent(ts) then Some(FilterMap(ts, CreatorItemEntry, |ts|)) else None
        case Scalar(t) =>
          if !Truthy(t) then Some([])
          else if |Words(Strip(t.value))| >= 2 then Some([CreatorEntry(t.value).value])
          else Some([[t.value, "", ""]]);
      if cats.None? || authors.None? then None
      else Some(PaperRecord(None, IdOf(rec), GetOr(rec, "title", Empty), GetOr(rec, "description", Empty),
                            GetOr(rec, "creator", Empty), Scalar(None), None, Scalar(None), Scalar(None),
                            GetOr(rec, "datestamp", Empty), authors.value, cats))
  }

  /** The loop over a `creator` list, one entry per creator with at least one token. */
  method ParseCreators(creators: seq<Text>) returns (parsed: seq<seq<string>>)
    ensures parsed == FilterMap(creators, CreatorItemEntry, |creators|)
  {
    parsed := [];
    var i := 0;
    while i < |creators|
      invariant 0 <= i <= |creators|
      invariant parsed == FilterMap(creators, CreatorItemEntry, i)
    {
      var entry := CreatorItemEntry(creators[i]);
      FilterMapStep(creators, CreatorItemEntry, i);
      if entry.Some? {
        parsed := parsed + [entry.value];
      }
      i := i + 1;
    }
  }

  /** `convert_oai_record_to_paper_data`. */
  method ConvertOaiRecord(rec: OaiRecord) returns (r: Option<PaperRecord>)
    ensures r == Converted(rec)
  {
    if Get(rec, "status") == Some(Scalar(Some("deleted"))) {
      return Some(DeletedPaper(IdOf(rec)));
    }
    var cats := SetsCategories(Get(rec, "sets"));
    if cats.None? {
      return None;
    }
    var creators := GetOr(rec, "creator", Many([]));
    var authors: seq<seq<string>>;
    match creators {
      case Many(ts) =>
        if !AllPresent(ts) {
          return None;
        }
        authors := ParseCreators(ts);
      case Scalar(t) =>
        if !Truthy(t) {
          authors := [];
        } else {
          if |Words(Strip(t.value))| >= 2 {
            authors := [CreatorEntry(t.value).value];
          } else {
            authors := [[t.value, "", ""]];
          }
        }
    }
    return Some(PaperRecord(None, IdOf(rec), GetOr(rec, "title", Empty), GetOr(rec, "description", Empty),
                            GetOr(rec, "creator", Empty), Scalar(None), None, Scalar(None), Scalar(None),
                            GetOr(rec, "datestamp", Empty), authors, cats));
  }

  /** The loop over one harvested page: the records that convert, in order. */
  method ConvertPage(page: seq<OaiRecord>) returns (papers: seq<PaperRecord>)
    ensures papers == FilterMap(page, Converted, |page|)
  {
    papers := [];
    var i := 0;
    while i < |page|
      invariant 0 <= i <= |page|
      invariant papers == FilterMap(page, Converted, i)
    {
      var p := ConvertOaiRecord(page[i]);
      if p.Some? {
        papers := papers + [p.value];
      }
      i := i + 1;
    }
  }

  // ---------------------------------------------------------------- conversion properties

  /** A deleted record converts to its id and the deleted status alone. */
  lemma ConvertDeleted(rec: OaiRecord)
    requires Get(rec, "status") == Some(Scalar(Some("deleted")))
    ensures Converted(rec) == Some(DeletedPaper(IdOf(rec)))
    ensures IsDeleted(Converted(rec).value)
  {
  }

  /** A converted active record is never deleted and carries no DOI, journal reference, report number or licence. */
  lemma ConvertActive(rec: OaiRecord)
    requires Get(rec, "status") != Some(Scalar(Some("deleted"))) && Converted(rec).Some?
    ensures var p := Converted(rec).value;
      !IsDeleted(p) && p.id == IdOf(rec) && p.doi == None && p.journalRef == Scalar(None)
      && p.reportNo == Scalar(None) && p.license == Scalar(None)
  {
  }

  /** A creator yields an entry exactly when it has a token; the entry has three fields and no suffix. */
  lemma CreatorEntryShape(creator: string)
    ensures CreatorEntry(creator).None? <==> Words(Strip(creator)) == []
    ensures CreatorEntry(creator).Some? ==> |CreatorEntry(creator).value| == 3 && CreatorEntry(creator).value[2] == ""
  {
  }

  /** A creator of two or more tokens: the last token is the surname, the others joined by single spaces the given names. */
  lemma CreatorSplit(creator: string)
    requires |Words(Strip(creator))| >= 2
    ensures var ws := Words(Strip(creator));
      CreatorEntry(creator) == Some([ws[|ws| - 1], Join(ws[..|ws| - 1], " "), ""])
  {
  }

  /** The last character of words joined by spaces is the last word's last character. */
  lemma {:induction false} JoinWordsLast(ws: seq<string>)
    requires AllWords(ws) && ws != []
    ensures var j := Join(ws, " ");
      j != [] && j[|j| - 1] == ws[|ws| - 1][|ws[|ws| - 1]| - 1]
    decreases |ws|
  {
    if |ws| > 1 {
      JoinWordsLast(ws[1..]);
    }
  }

  lemma JoinWordsStripped(ws: seq<string>)
    requires AllWords(ws) && ws != []
    ensures Strip(Join(ws, " ")) == Join(ws, " ")
  {
    var j := Join(ws, " ");
    StripLeftWords(ws);
    JoinWordsLast(ws);
    StripOfUnpadded(j);
  }

  /**
   * The display name built from a creator's entry is the creator with its
   * whitespace normalised: tokens in order, single spaces between them.
   */
  lemma CreatorNameRoundTrip(creator: string)
    requires CreatorEntry(creator).Some?
    ensures FullName(CreatorEntry(creator).value) == Join(Words(Strip(creator)), " ")
  {
    var ws := Words(Strip(creator));
    var e := CreatorEntry(creator).value;
    if |ws| >= 2 {
      var init := ws[..|ws| - 1];
      var last := ws[|ws| - 1];
      assert init + [last] == ws;
      JoinSnoc(init, last, " ");
      JoinWordsStripped(ws);
      assert FullName(e) == Strip(Join(init, " ") + " " + last);
    } else {
      var w := ws[0];
      assert " " + w == [' '] + w;
      assert StripLeft(" " + w) == StripLeft(w);
      JoinWordsStripped([w]);
      assert FullName(e) == Strip(" " + w);
    }
  }

  // ---------------------------------------------------------------- batch upsert

  /** The counters `upsert_paper_batch` returns. */
  datatype Stats = Stats(updated: nat, deleted: nat, errors: nat)

  function Total(s: Stats): nat {
    s.updated + s.deleted + s.errors
  }

  /** The key-by-key sum of two counters. */
  function Plus(a: Stats, b: Stats): Stats {
    Stats(a.updated + b.updated, a.deleted + b.deleted, a.errors + b.errors)
  }

  /** `[p for p in papers_batch if p.get('status') == 'deleted']`. */
  function DeletedOf(batch: seq<PaperRecord>): seq<PaperRecord>
    decreases |batch|
  {
    if batch == [] then []
    else
      var p := batch[|batch| - 1];
      DeletedOf(batch[..|batch| - 1]) + (if IsDeleted(p) then [p] else [])
  }

  /** `[p for p in papers_batch if p.get('status') != 'deleted']`. */
  function ActiveOf(batch: seq<PaperRecord>): seq<PaperRecord>
    decreases |batch|
  {
    if batch == [] then []
    else
      var p := batch[|batch| - 1];
      ActiveOf(batch[..|batch| - 1]) + (if IsDeleted(p) then [] else [p])
  }

  /** The deleted and the active records split the batch: every record lands in exactly one of them. */
  lemma {:induction false} Partition(batch: seq<PaperRecord>)
    ensures |DeletedOf(batch)| + |ActiveOf(batch)| == |batch|
    ensures forall p :: p in DeletedOf(batch) <==> p in batch && IsDeleted(p)
    ensures forall p :: p in ActiveOf(batch) <==> p in batch && !IsDeleted(p)
    decreases |batch|
  {
    if batch != [] {
      var init := batch[..|batch| - 1];
      Partition(init);
      assert batch == init + [batch[|batch| - 1]];
    }
  }

  /**
   * The deletion loop over the first `n` deleted records: the store after it
   * and the counts of deletions and errors. `delete_paper` raising (its
   * statement failing) counts an error; a paper that is not there still counts
   * as deleted.
   */
  function DeleteRun(st: Store, dels: seq<PaperRecord>, n: nat): (r: (Store, nat, nat))
    requires n <= |dels|
  {
    if n == 0 then (st, 0, 0)
    else
      var (st1, deleted, errors) := DeleteRun(st, dels, n - 1);
      var (o, st2) := Run(st1, DetachDeletePaper(dels[n - 1].id));
      if o.Failed? then (st2, deleted, errors + 1) else (st2, deleted + 1, errors)
  }

  /** The deletion loop of `upsert_paper_batch`. */
  method DeletePapers(st: Store, dels: seq<PaperRecord>) returns (st': Store, deleted: nat, errors: nat)
    ensures (st', deleted, errors) == DeleteRun(st, dels, |dels|)
  {
    st', deleted, errors := st, 0, 0;
    var i := 0;
    while i < |dels|
      invariant 0 <= i <= |dels|
      invariant (st', deleted, errors) == DeleteRun(st, dels, i)
    {
      var r := Run(st', DetachDeletePaper(dels[i].id));
      ghost var next := DeleteRun(st, dels, i + 1);
      assert next == if r.0.Failed? then (r.1, deleted, errors + 1) else (r.1, deleted + 1, errors);
      st' := r.1;
      if r.0.Failed? {
        errors := errors + 1;
      } else {
        deleted := deleted + 1;
      }
      i := i + 1;
    }
  }

  /** Each deleted record is counted once, as deleted or as an error. */
  lemma {:induction false} DeleteRunCounts(st: Store, dels: seq<PaperRecord>, n: nat)
    requires n <= |dels|
    ensures DeleteRun(st, dels, n).1 + DeleteRun(st, dels, n).2 == n
    decreases n
  {
    if n > 0 {
      DeleteRunCounts(st, dels, n - 1);
    }
  }

  /** Every deletion consumes one outcome, and without faults none is an error, whether or not the paper exists. */
  lemma {:induction false} DeleteRunFaults(st: Store, dels: seq<PaperRecord>, n: nat)
    requires n <= |dels|
    ensures DeleteRun(st, dels, n).0.faults == if n <= |st.faults| then st.faults[n..] else []
    ensures NoFaults(st.faults, n) ==> DeleteRun(st, dels, n).2 == 0
    decreases n
  {
    if n > 0 {
      DeleteRunFaults(st, dels, n - 1);
      if n <= |st.faults| {
        assert st.faults[n - 1..][1..] == st.faults[n..];
      }
    }
  }

  // ---------------------------------------------------------------- active papers

  /**
   * The statements `_process_active_papers_batch` sends, in order: the paper
   * MERGE stamping `last_modified`, the author and category MERGEs when there
   * are any, then for authors and for categories the removal of the batch's
   * papers' old edges followed by the new edges.
   */
  function ActiveStatements(b: BatchRows, now: DateTime): seq<Stmt> {
    [MergePapers(b.papers, Some(now))]
    + (if b.authorRels != [] then [MergeAuthors(Firsts(b.authorRels))] else [])
    + (if b.categoryRels != [] then [MergeCategories(Seconds(b.categoryRels))] else [])
    + (if b.authorRels != [] then [DeleteWrote(Seconds(b.authorRels)), MergeWrote(b.authorRels)] else [])
    + (if b.categoryRels != [] then [DeleteHasCategory(Firsts(b.categoryRels)), MergeHasCategory(b.categoryRels)] else [])
  }

  /**
   * The graph the statements leave, stated edge set by edge set: the batch's
   * papers merged, its authors and categories added, and the WROTE and
   * HAS_CATEGORY edges of every paper named by a relationship row replaced
   * by that batch's rows.
   */
  function Reconciled(g: Graph, b: BatchRows, now: DateTime): Graph
    requires AllKeyed(b.papers)
  {
    var papers := MergeRows(g.papers, b.papers, Some(now));
    var a := b.authorRels;
    var c := b.categoryRels;
    g.(papers := papers,
       authors := g.authors + (set i | 0 <= i < |a| :: a[i].0),
       categories := g.categories + (set i | 0 <= i < |c| :: c[i].1),
       wrote := (set e | e in g.wrote && e.1 !in Keyed(Seconds(a))) + AddedWrote(a, papers),
       hasCategory := (set e | e in g.hasCategory && e.0 !in Keyed(Firsts(c))) + AddedHasCategory(c, papers))
  }

  /** The statements of a batch whose rows can all be stored succeed in the graph and leave `Reconciled`. */
  lemma ActiveStatementsEffect(g: Graph, b: BatchRows, now: DateTime)
    requires AllStorable(b.papers)
    ensures ApplyAll(g, ActiveStatements(b, now)) == Some(Reconciled(g, b, now))
  {
    var a := b.authorRels;
    var c := b.categoryRels;
    var s1: seq<Stmt> := [MergePapers(b.papers, Some(now))];
    var s2: seq<Stmt> := if a != [] then [MergeAuthors(Firsts(a))] else [];
    var s3: seq<Stmt> := if c != [] then [MergeCategories(Seconds(c))] else [];
    var s4: seq<Stmt> := if a != [] then [DeleteWrote(Seconds(a)), MergeWrote(a)] else [];
    var s5: seq<Stmt> := if c != [] then [DeleteHasCategory(Firsts(c)), MergeHasCategory(c)] else [];
    assert ActiveStatements(b, now) == s1 + s2 + s3 + s4 + s5;
    var r := Reconciled(g, b, now);
    var g1 := g.(papers := r.papers);
    var g2 := g1.(authors := r.authors);
    var g3 := g2.(categories := r.categories);
    var g4 := g3.(wrote := r.wrote);
    MergePapersEffect(g, b.papers, Some(now));
    AuthorsStep(g1, a);
    CategoriesStep(g2, c);
    WroteStep(g3, a);
    HasCategoryStep(g4, c);
    assert g4.(hasCategory := r.hasCategory) == r;
    ApplyAllAppend(g, s1, s2);
    ApplyAllAppend(g, s1 + s2, s3);
    ApplyAllAppend(g, s1 + s2 + s3, s4);
    ApplyAllAppend(g, s1 + s2 + s3 + s4, s5);
  }

  lemma WroteStep(g: Graph, a: seq<(string, Text)>)
    requires forall i :: 0 <= i < |a| ==> a[i].0 in g.authors
    ensures ApplyAll(g, if a != [] then [DeleteWrote(Seconds(a)), MergeWrote(a)] else [])
         == Some(g.(wrote := (set e | e in g.wrote && e.1 !in Keyed(Seconds(a))) + AddedWrote(a, g.papers)))
  {
    var kept := set e | e in g.wrote && e.1 !in Keyed(Seconds(a));
    var added := AddedWrote(a, g.papers);
    if a == [] {
      assert Keyed(Seconds(a)) == {};
      assert kept + added == g.wrote;
      assert g.(wrote := g.wrote) == g;
    } else {
      var gd := g.(wrote := kept);
      DeleteWroteEffect(g, Seconds(a));
      MergeWroteEffect(gd, a);
      ApplyAllAppend(g, [DeleteWrote(Seconds(a))], [MergeWrote(a)]);
      assert [DeleteWrote(Seconds(a))] + [MergeWrote(a)] == [DeleteWrote(Seconds(a)), MergeWrote(a)];
      assert gd.(wrote := kept + added) == g.(wrote := kept + added);
    }
  }

  lemma HasCategoryStep(g: Graph, c: seq<(Text, string)>)
    requires forall i :: 0 <= i < |c| ==> c[i].1 in g.categories
    ensures ApplyAll(g, if c != [] then [DeleteHasCategory(Firsts(c)), MergeHasCategory(c)] else [])
         == Some(g.(hasCategory := (set e | e in g.hasCategory && e.0 !in Keyed(Firsts(c))) + AddedHasCategory(c, g.papers)))
  {
    var kept := set e | e in g.hasCategory && e.0 !in Keyed(Firsts(c));
    var added := AddedHasCategory(c, g.papers);
    if c == [] {
      assert Keyed(Firsts(c)) == {};
      assert kept + added == g.hasCategory;
      assert g.(hasCategory := g.hasCategory) == g;
    } else {
      var gd := g.(hasCategory := kept);
      DeleteHasCategoryEffect(g, Firsts(c));
      MergeHasCategoryEffect(gd, c);
      ApplyAllAppend(g, [DeleteHasCategory(Firsts(c))], [MergeHasCategory(c)]);
      assert [DeleteHasCategory(Firsts(c))] + [MergeHasCategory(c)] == [DeleteHasCategory(Firsts(c)), MergeHasCategory(c)];
      assert gd.(hasCategory := kept + added) == g.(hasCategory := kept + added);
    }
  }

  /**
   * `_process_active_papers_batch`: `false` when it raises, either while
   * preparing the rows (the store untouched) or at a statement (the
   * statements before it kept, since the session has no transaction).
   */
  function ActiveRun(st: Store, active: seq<PaperRecord>, now: DateTime): (bool, Store) {
    if !DatesOk(active) then (false, st) else RunAll(st, ActiveStatements(BatchOf(active), now))
  }

  /** `_process_active_papers_batch`. */
  method ProcessActivePapers(st: Store, active: seq<PaperRecord>, now: DateTime) returns (ok: bool, st': Store)
    ensures (ok, st') == ActiveRun(st, active, now)
  {
    var prepared := PrepareBatch(active);
    if prepared.Err? {
      return false, st;
    }
    ok, st' := Execute(st, ActiveStatements(prepared.value, now));
  }

  /**
   * `upsert_paper_batch`: nothing for an empty batch; otherwise the deletions
   * one by one, then the active records as one batch whose failure counts
   * every one of them as an error.
   */
  function UpsertRun(st: Store, batch: seq<PaperRecord>, now: DateTime): (Stats, Store) {
    if batch == [] then (Stats(0, 0, 0), st)
    else
      var dels := DeletedOf(batch);
      var (st1, deleted, errors) := DeleteRun(st, dels, |dels|);
      var active := ActiveOf(batch);
      if active == [] then (Stats(0, deleted, errors), st1)
      else
        var (ok, st2) := ActiveRun(st1, active, now);
        if ok then (Stats(|active|, deleted, errors), st2)
        else (Stats(0, deleted, errors + |active|), st2)
  }

  /** `upsert_paper_batch`. */
  method UpsertPaperBatch(st: Store, batch: seq<PaperRecord>, now: DateTime) returns (stats: Stats, st': Store)
    ensures (stats, st') == UpsertRun(st, batch, now)
  {
    if batch == [] {
      return Stats(0, 0, 0), st;
    }
    var deleted, errors;
    st', deleted, errors := DeletePapers(st, DeletedOf(batch));
    var active := ActiveOf(batch);
    stats := Stats(0, deleted, errors);
    if active != [] {
      var ok;
      ok, st' := ProcessActivePapers(st', active, now);
      if ok {
        stats := stats.(updated := |active|);
      } else {
        stats := stats.(errors := errors + |active|);
      }
    }
  }

  /** Every record of a batch is counted exactly once; an empty batch counts nothing and changes nothing. */
  lemma UpsertCounts(st: Store, batch: seq<PaperRecord>, now: DateTime)
    ensures Total(UpsertRun(st, batch, now).0) == |batch|
    ensures batch == [] ==> UpsertRun(st, batch, now) == (Stats(0, 0, 0), st)
  {
    if batch != [] {
      Partition(batch);
      DeleteRunCounts(st, DeletedOf(batch), |DeletedOf(batch)|);
    }
  }

  /** A batch that went through succeeded at every statement, so it left the reconciled graph. */
  lemma ActiveRunSucceeded(st: Store, active: seq<PaperRecord>, now: DateTime)
    requires ActiveRun(st, active, now).0
    ensures DatesOk(active) && AllStorable(Rows(active))
    ensures ActiveRun(st, active, now).1.graph == Reconciled(st.graph, BatchOf(active), now)
  {
    var ss := ActiveStatements(BatchOf(active), now);
    var g' := ActiveRun(st, active, now).1.graph;
    RunAllPrefix(st, ss);
    assert ss[..|ss|] == ss;
    assert ApplyAll(st.graph, ss) == Some(g');
    assert ss[0] == MergePapers(Rows(active), Some(now));
    assert Apply(st.graph, ss[0]).Some?;
    ActiveStatementsEffect(st.graph, BatchOf(active), now);
  }

  /**
   * A batch one of whose records cannot be stored (a title list with an
   * empty `dc:title` among its elements, say) raises at the paper MERGE,
   * whatever the database does otherwise, and writes nothing.
   */
  lemma UnstorableActiveFails(st: Store, active: seq<PaperRecord>, now: DateTime, i: nat)
    requires i < |active| && !StorableRecord(active[i])
    ensures !ActiveRun(st, active, now).0 && ActiveRun(st, active, now).1.graph == st.graph
  {
    if DatesOk(active) {
      RowsStorable(active);
      var ss := ActiveStatements(BatchOf(active), now);
      assert ss == [ss[0]] + ss[1..];
      RunAllCons(st, ss[0], ss[1..]);
    }
  }

  /** Such a batch counts every active record as an error and none as updated. */
  lemma UnstorableBatchCounted(st: Store, batch: seq<PaperRecord>, now: DateTime, i: nat)
    requires i < |ActiveOf(batch)| && !StorableRecord(ActiveOf(batch)[i])
    ensures var dels := DeletedOf(batch);
      var (_, deleted, errors) := DeleteRun(st, dels, |dels|);
      UpsertRun(st, batch, now).0 == Stats(0, deleted, errors + |ActiveOf(batch)|)
  {
    var dels := DeletedOf(batch);
    UnstorableActiveFails(DeleteRun(st, dels, |dels|).0, ActiveOf(batch), now, i);
  }

  // ---------------------------------------------------------------- edge reconciliation

  /** Some record of the batch for paper `k` has at least one kept author. */
  predicate SuppliesAuthors(active: seq<PaperRecord>, k: string) {
    exists i :: 0 <= i < |active| && active[i].id == Some(k) && AuthorNames(active[i].authorsParsed) != []
  }

  /** Some record of the batch for paper `k` has at least one category token. */
  predicate SuppliesCategories(active: seq<PaperRecord>, k: string) {
    exists i :: 0 <= i < |active| && active[i].id == Some(k) && CategoryIds(active[i].categories) != []
  }

  /** The papers whose WROTE edges the batch removes are those it supplies authors for. */
  lemma WroteIdsSupplied(active: seq<PaperRecord>, k: string)
    ensures k in Keyed(Seconds(AuthorRels(active))) <==> SuppliesAuthors(active, k)
  {
    if k in Keyed(Seconds(AuthorRels(active))) {
      WroteIdSource(active, k);
    }
    if SuppliesAuthors(active, k) {
      WroteIdHas(active, k);
    }
  }

  lemma WroteIdSource(active: seq<PaperRecord>, k: string)
    requires k in Keyed(Seconds(AuthorRels(active)))
    ensures SuppliesAuthors(active, k)
  {
    var a := AuthorRels(active);
    var ids := Seconds(a);
    var j :| 0 <= j < |ids| && ids[j].Some? && ids[j].value == k;
    AuthorRelSource(active, a[j]);
  }

  lemma WroteIdHas(active: seq<PaperRecord>, k: string)
    requires SuppliesAuthors(active, k)
    ensures k in Keyed(Seconds(AuthorRels(active)))
  {
    var a := AuthorRels(active);
    var ids := Seconds(a);
    var i :| 0 <= i < |active| && active[i].id == Some(k) && AuthorNames(active[i].authorsParsed) != [];
    var name := AuthorNames(active[i].authorsParsed)[0];
    AuthorRelHas(active, i, name);
    var j :| 0 <= j < |a| && a[j] == (name, Some(k));
    assert ids[j] == Some(k);
  }

  /** The papers whose HAS_CATEGORY edges the batch removes are those it supplies categories for. */
  lemma CategoryIdsSupplied(active: seq<PaperRecord>, k: string)
    ensures k in Keyed(Firsts(CategoryRels(active))) <==> SuppliesCategories(active, k)
  {
    if k in Keyed(Firsts(CategoryRels(active))) {
      CategoryIdSource(active, k);
    }
    if SuppliesCategories(active, k) {
      CategoryIdHas(active, k);
    }
  }

  lemma CategoryIdSource(active: seq<PaperRecord>, k: string)
    requires k in Keyed(Firsts(CategoryRels(active)))
    ensures SuppliesCategories(active, k)
  {
    var c := CategoryRels(active);
    var ids := Firsts(c);
    var j :| 0 <= j < |ids| && ids[j].Some? && ids[j].value == k;
    CategoryRelSource(active, c[j]);
  }

  lemma CategoryIdHas(active: seq<PaperRecord>, k: string)
    requires SuppliesCategories(active, k)
    ensures k in Keyed(Firsts(CategoryRels(active)))
  {
    var c := CategoryRels(active);
    var ids := Firsts(c);
    var i :| 0 <= i < |active| && active[i].id == Some(k) && CategoryIds(active[i].categories) != [];
    var cat := CategoryIds(active[i].categories)[0];
    CategoryRelHas(active, i, cat);
    var j :| 0 <= j < |c| && c[j] == (Some(k), cat);
    assert ids[j] == Some(k);
  }

  /**
   * After the batch, a paper the batch names with authors is written by
   * exactly the authors of its records in the batch; any other paper keeps
   * the WROTE edges it had.
   */
  lemma WroteReconciled(st: Store, active: seq<PaperRecord>, now: DateTime, name: string, k: string)
    requires ActiveRun(st, active, now).0
    ensures var g := st.graph;
      var g' := ActiveRun(st, active, now).1.graph;
      (SuppliesAuthors(active, k) ==> ((name, k) in g'.wrote <==> AuthorOf(active, name, k)))
      && (!SuppliesAuthors(active, k) ==> ((name, k) in g'.wrote <==> (name, k) in g.wrote))
  {
    var g := st.graph;
    ActiveRunSucceeded(st, active, now);
    var a := AuthorRels(active);
    var papers := MergeRows(g.papers, Rows(active), Some(now));
    var added := AddedWrote(a, papers);
    WroteIdsSupplied(active, k);
    if (name, k) in added {
      var j :| 0 <= j < |a| && a[j].1.Some? && a[j].1.value in papers && (a[j].0, a[j].1.value) == (name, k);
      AuthorRelSource(active, a[j]);
    }
    if AuthorOf(active, name, k) {
      var i :| 0 <= i < |active| && active[i].id == Some(k) && name in AuthorNames(active[i].authorsParsed);
      AuthorRelHas(active, i, name);
      MergeRowsAdds(g.papers, Rows(active), Some(now), i);
      var j :| 0 <= j < |a| && a[j] == (name, Some(k));
      assert (name, k) in added;
    }
  }

  /**
   * After the batch, a paper the batch names with categories has exactly the
   * categories of its records in the batch; any other paper keeps its
   * HAS_CATEGORY edges.
   */
  lemma HasCategoryReconciled(st: Store, active: seq<PaperRecord>, now: DateTime, k: string, cat: string)
    requires ActiveRun(st, active, now).0
    ensures var g := st.graph;
      var g' := ActiveRun(st, active, now).1.graph;
      (SuppliesCategories(active, k) ==> ((k, cat) in g'.hasCategory <==> CategoryOf(active, k, cat)))
      && (!SuppliesCategories(active, k) ==> ((k, cat) in g'.hasCategory <==> (k, cat) in g.hasCategory))
  {
    var g := st.graph;
    ActiveRunSucceeded(st, active, now);
    var c := CategoryRels(active);
    var papers := MergeRows(g.papers, Rows(active), Some(now));
    var added := AddedHasCategory(c, papers);
    CategoryIdsSupplied(active, k);
    if (k, cat) in added {
      var j :| 0 <= j < |c| && c[j].0.Some? && c[j].0.value in papers && (c[j].0.value, c[j].1) == (k, cat);
      CategoryRelSource(active, c[j]);
    }
    if CategoryOf(active, k, cat) {
      var i :| 0 <= i < |active| && active[i].id == Some(k) && cat in CategoryIds(active[i].categories);
      CategoryRelHas(active, i, cat);
      MergeRowsAdds(g.papers, Rows(active), Some(now), i);
      var j :| 0 <= j < |c| && c[j] == (Some(k), cat);
      assert (k, cat) in added;
    }
  }

  // ---------------------------------------------------------------- papers

  /**
   * The paper MERGE: a paper the batch names carries the fields of one of its
   * records (the last), `last_modified` stamped and its OpenAlex id kept; a
   * paper the batch does not name is untouched.
   */
  lemma PapersMerged(st: Store, active: seq<PaperRecord>, now: DateTime, k: string)
    requires ActiveRun(st, active, now).0
    ensures var g := st.graph;
      var g' := ActiveRun(st, active, now).1.graph;
      (!Names(active, k) ==> Lookup(g'.papers, k) == Lookup(g.papers, k))
      && (Names(active, k) ==>
            k in g'.papers
            && (exists i :: 0 <= i < |active| && active[i].id == Some(k)
                  && g'.papers[k] == UpsertNode(Lookup(g.papers, k), RowOf(active[i]), Some(now)))
            && g'.papers[k].lastModified == Some(now)
            && g'.papers[k].openalexId == (if k in g.papers then g.papers[k].openalexId else None))
  {
    var g := st.graph;
    var rows := Rows(active);
    ActiveRunSucceeded(st, active, now);
    MergeRowsEffect(g.papers, rows, Some(now), k);
    LastRowForFound(rows, k);
    if Names(active, k) {
      var i :| 0 <= i < |active| && active[i].id == Some(k);
      assert rows[i].arxivId == Some(k);
      var row := LastRowFor(rows, k).value;
      var j :| 0 <= j < |rows| && rows[j] == row;
      assert row == RowOf(active[j]);
    }
  }

  /**
   * The updater's records carry no DOI, so every paper a batch of them
   * upserts is left with its DOI cleared.
   */
  lemma UpsertClearsDoi(st: Store, active: seq<PaperRecord>, now: DateTime, k: string)
    requires ActiveRun(st, active, now).0
    requires forall i :: 0 <= i < |active| ==> active[i].doi == None
    requires Names(active, k)
    ensures k in ActiveRun(st, active, now).1.graph.papers && ActiveRun(st, active, now).1.graph.papers[k].doi == None
  {
    PapersMerged(st, active, now, k);
  }

  // ---------------------------------------------------------------- reruns

  /** Reconciling the same batch twice: the second pass restamps `last_modified` and changes nothing else. */
  lemma ReconciledTwice(g: Graph, b: BatchRows, now: DateTime, later: DateTime)
    requires AllKeyed(b.papers)
    ensures var r1 := Reconciled(g, b, now);
      var r2 := Reconciled(r1, b, later);
      r2.authors == r1.authors && r2.categories == r1.categories
      && r2.wrote == r1.wrote && r2.hasCategory == r1.hasCategory
      && r2.cites == r1.cites && r2.ledger == r1.ledger
      && r2.papers.Keys == r1.papers.Keys
      && forall k :: k in r1.papers ==> r2.papers[k].(lastModified := None) == r1.papers[k].(lastModified := None)
  {
    var p1 := MergeRows(g.papers, b.papers, Some(now));
    MergeRowsTwice(g.papers, b.papers, Some(now), Some(later));
    ReplaceWroteTwice(g.wrote, b.authorRels, p1, MergeRows(p1, b.papers, Some(later)));
    ReplaceHasCategoryTwice(g.hasCategory, b.categoryRels, p1, MergeRows(p1, b.papers, Some(later)));
  }

  /** Replacing the same WROTE rows twice, over papers with the same keys, leaves the edges of the first pass. */
  lemma ReplaceWroteTwice(before: set<(string, string)>, a: seq<(string, Text)>, p1: map<string, Paper>, p2: map<string, Paper>)
    requires p1.Keys == p2.Keys
    ensures var k := Keyed(Seconds(a));
      var w1 := (set e | e in before && e.1 !in k) + AddedWrote(a, p1);
      (set e | e in w1 && e.1 !in k) + AddedWrote(a, p2) == w1
  {
    var ids := Seconds(a);
    assert AddedWrote(a, p2) == AddedWrote(a, p1);
    forall e | e in AddedWrote(a, p1) ensures e.1 in Keyed(ids) {
      var i :| 0 <= i < |a| && a[i].1.Some? && a[i].1.value in p1 && e == (a[i].0, a[i].1.value);
      assert ids[i] == a[i].1;
    }
  }

  /** Replacing the same HAS_CATEGORY rows twice, over papers with the same keys, leaves the edges of the first pass. */
  lemma ReplaceHasCategoryTwice(before: set<(string, string)>, c: seq<(Text, string)>, p1: map<string, Paper>, p2: map<string, Paper>)
    requires p1.Keys == p2.Keys
    ensures var k := Keyed(Firsts(c));
      var h1 := (set e | e in before && e.0 !in k) + AddedHasCategory(c, p1);
      (set e | e in h1 && e.0 !in k) + AddedHasCategory(c, p2) == h1
  {
    var ids := Firsts(c);
    assert AddedHasCategory(c, p2) == AddedHasCategory(c, p1);
    forall e | e in AddedHasCategory(c, p1) ensures e.0 in Keyed(ids) {
      var i :| 0 <= i < |c| && c[i].0.Some? && c[i].0.value in p1 && e == (c[i].0.value, c[i].1);
      assert ids[i] == c[i].0;
    }
  }

  /**
   * Running the same batch a second time after it went through leaves the
   * same papers, authors, categories and edges: MERGE creates no duplicates,
   * and only `last_modified` is stamped again.
   */
  lemma RerunIdempotent(st: Store, active: seq<PaperRecord>, now: DateTime, later: DateTime)
    requires ActiveRun(st, active, now).0
    requires ActiveRun(ActiveRun(st, active, now).1, active, later).0
    ensures var g1 := ActiveRun(st, active, now).1.graph;
      var g2 := ActiveRun(ActiveRun(st, active, now).1, active, later).1.graph;
      g2.authors == g1.authors && g2.categories == g1.categories
      && g2.wrote == g1.wrote && g2.hasCategory == g1.hasCategory
      && g2.cites == g1.cites && g2.ledger == g1.ledger
      && g2.papers.Keys == g1.papers.Keys
      && forall k :: k in g1.papers ==> g2.papers[k].(lastModified := None) == g1.papers[k].(lastModified := None)
  {
    var st1 := ActiveRun(st, active, now).1;
    ActiveRunSucceeded(st, active, now);
    ActiveRunSucceeded(st1, active, later);
    ReconciledTwice(st.graph, BatchOf(active), now, later);
  }

  // ---------------------------------------------------------------- the run

  /** Every harvested page converted, page by page. */
  function ConvertedPages(pages: seq<seq<OaiRecord>>): (r: seq<seq<PaperRecord>>)
    ensures |r| == |pages|
  {
    seq(|pages|, i requires 0 <= i < |pages| => FilterMap(pages[i], Converted, |pages[i]|))
  }

  /** `upsert_paper_batch` at clock `now`, as one step of a run. */
  function Upsert(now: DateTime): (Store, seq<PaperRecord>) -> (Stats, Store) {
    (st, batch) => UpsertRun(st, batch, now)
  }

  /** The batches of a run: the first `n` run by `step` in order, the empty ones skipped, the stats summed. */
  function ProcessBatches(st: Store, batches: seq<seq<PaperRecord>>, step: (Store, seq<PaperRecord>) -> (Stats, Store), n: nat): (Stats, Store)
    requires n <= |batches|
  {
    if n == 0 then (Stats(0, 0, 0), st)
    else
      var (total, st1) := ProcessBatches(st, batches, step, n - 1);
      var papers := batches[n - 1];
      if papers == [] then (total, st1)
      else
        var (stats, st2) := step(st1, papers);
        (Plus(total, stats), st2)
  }

  /** One more batch: skipped when empty, otherwise run on the store the earlier ones left. */
  lemma ProcessBatchesStep(st: Store, batches: seq<seq<PaperRecord>>, step: (Store, seq<PaperRecord>) -> (Stats, Store), n: nat)
    requires 0 < n <= |batches|
    ensures var prev := ProcessBatches(st, batches, step, n - 1);
      var r := step(prev.1, batches[n - 1]);
      ProcessBatches(st, batches, step, n) == if batches[n - 1] == [] then prev else (Plus(prev.0, r.0), r.1)
  {
  }

  /** The number of records in the first `n` batches. */
  function BatchesSize(batches: seq<seq<PaperRecord>>, n: nat): nat
    requires n <= |batches|
  {
    if n == 0 then 0 else BatchesSize(batches, n - 1) + |batches[n - 1]|
  }

  /** How `run_incremental_update` ends: it returns the totals, or raises, or is still harvesting when the replies run out. */
  datatype RunResult = Completed(stats: Stats) | Raised | StillHarvesting(stats: Stats)

  /**
   * The end of a run over the converted pages: after the batches, stamped
   * `stamp`, the ledger is written with the clock `finish` read after the
   * harvest, only when the harvest loop has completed; a failure of that
   * write raises.
   */
  function RunOutcome(st: Store, batches: seq<seq<PaperRecord>>, completed: bool, stamp: DateTime, finish: DateTime)
    : (RunResult, Store)
  {
    var (total, st1) := ProcessBatches(st, batches, Upsert(stamp), |batches|);
    if !completed then (StillHarvesting(total), st1)
    else
      var (o, st2) := Run(st1, RecordUpdate(finish));
      if o.Failed? then (Raised, st2) else (Completed(total), st2)
  }

  /** The batch loop of `run_incremental_update`. */
  method ProcessHarvest(st: Store, pages: seq<seq<OaiRecord>>, now: DateTime) returns (total: Stats, st': Store)
    ensures (total, st') == ProcessBatches(st, ConvertedPages(pages), Upsert(now), |pages|)
  {
    ghost var batches := ConvertedPages(pages);
    total, st' := Stats(0, 0, 0), st;
    var i := 0;
    while i < |pages|
      invariant 0 <= i <= |pages|
      invariant (total, st') == ProcessBatches(st, batches, Upsert(now), i)
    {
      var papers := ConvertPage(pages[i]);
      assert papers == batches[i];
      ProcessBatchesStep(st, batches, Upsert(now), i + 1);
      if papers != [] {
        var stats;
        stats, st' := UpsertPaperBatch(st', papers, now);
        total := Plus(total, stats);
      }
      i := i + 1;
    }
  }

  /**
   * `run_incremental_update`: the harvest from the last update time, the
   * batches, then the ledger. `replies` are the repository's answers to the
   * successive requests. The program reads three clocks: `start` is
   * `datetime.now()` for the first-run fallback, `stamp` is Neo4j's
   * `datetime()` in the batch MERGE, and `finish` is the `datetime.now()`
   * recorded after the harvest. The last update time is `None` where
   * `start - timedelta(days=7)` overflows, which raises.
   */
  method RunIncrementalUpdate(st: Store, replies: seq<Reply>, start: DateTime, stamp: DateTime, finish: DateTime)
    returns (result: RunResult, st': Store, ghost attempts: seq<Attempt>)
    requires TimesValid(st.graph) && ValidDateTime(start)
    ensures LastUpdateTimestamp(st.graph, start).None? ==> result == Raised && st' == st
    ensures LastUpdateTimestamp(st.graph, start).Some? ==>
      var last := LastUpdateTimestamp(st.graph, start).value;
      IsHarvest(last, replies, attempts)
      && (result, st') == RunOutcome(st, ConvertedPages(Yielded(attempts, |attempts|)), Completes(attempts), stamp, finish)
  {
    attempts := [];
    var last := LastUpdateTimestamp(st.graph, start);
    if last.None? {
      return Raised, st, attempts;
    }
    var pages, completed;
    pages, attempts, completed := HarvestIncremental(last.value, replies);
    var total;
    total, st' := ProcessHarvest(st, pages, stamp);
    if !completed {
      return StillHarvesting(total), st', attempts;
    }
    var r := Run(st', RecordUpdate(finish));
    st' := r.1;
    if r.0.Failed? {
      result := Raised;
    } else {
      result := Completed(total);
    }
  }

  /** The harvest loop has returned: its last attempt got a reply that ends it. */
  predicate Completes(attempts: seq<Attempt>) {
    |attempts| > 0 && EndsHarvest(attempts[|attempts| - 1].result)
  }

  // ---------------------------------------------------------------- run properties

  /** Batches whose every step leaves the ledger alone leave it alone. */
  lemma {:induction false} ProcessBatchesKeepsLedger(st: Store, batches: seq<seq<PaperRecord>>, step: (Store, seq<PaperRecord>) -> (Stats, Store), n: nat)
    requires n <= |batches|
    requires forall s, b :: step(s, b).1.graph.ledger == s.graph.ledger
    ensures ProcessBatches(st, batches, step, n).1.graph.ledger == st.graph.ledger
    decreases n
  {
    if n > 0 {
      ProcessBatchesKeepsLedger(st, batches, step, n - 1);
    }
  }

  /** Batches whose every step counts each record once count every record once. */
  lemma {:induction false} ProcessBatchesCounts(st: Store, batches: seq<seq<PaperRecord>>, step: (Store, seq<PaperRecord>) -> (Stats, Store), n: nat)
    requires n <= |batches|
    requires forall s, b :: Total(step(s, b).0) == |b|
    ensures Total(ProcessBatches(st, batches, step, n).0) == BatchesSize(batches, n)
    decreases n
  {
    if n > 0 {
      ProcessBatchesCounts(st, batches, step, n - 1);
    }
  }

  /** An upsert never writes the ledger. */
  lemma UpsertKeepsLedger(st: Store, batch: seq<PaperRecord>, now: DateTime)
    ensures UpsertRun(st, batch, now).1.graph.ledger == st.graph.ledger
  {
    if batch != [] {
      var dels := DeletedOf(batch);
      DeleteRunKeepsLedger(st, dels, |dels|);
      ActiveRunKeepsLedger(DeleteRun(st, dels, |dels|).0, ActiveOf(batch), now);
    }
  }

  lemma ActiveRunKeepsLedger(st: Store, active: seq<PaperRecord>, now: DateTime)
    ensures ActiveRun(st, active, now).1.graph.ledger == st.graph.ledger
  {
    if DatesOk(active) {
      var ss := ActiveStatements(BatchOf(active), now);
      ActiveStatementsKeepLedger(BatchOf(active), now);
      RunAllKeepsLedger(st, ss);
    }
  }

  /** None of a batch's statements is the ledger write. */
  lemma ActiveStatementsKeepLedger(b: BatchRows, now: DateTime)
    ensures forall s :: s in ActiveStatements(b, now) ==> !s.RecordUpdate?
  {
  }

  lemma {:induction false} DeleteRunKeepsLedger(st: Store, dels: seq<PaperRecord>, n: nat)
    requires n <= |dels|
    ensures DeleteRun(st, dels, n).0.graph.ledger == st.graph.ledger
    decreases n
  {
    if n > 0 {
      DeleteRunKeepsLedger(st, dels, n - 1);
    }
  }

  lemma UpsertStepKeepsLedger(now: DateTime)
    ensures forall s, b :: Upsert(now)(s, b).1.graph.ledger == s.graph.ledger
  {
    forall s, b ensures Upsert(now)(s, b).1.graph.ledger == s.graph.ledger {
      UpsertKeepsLedger(s, b, now);
    }
  }

  lemma UpsertStepCounts(now: DateTime)
    ensures forall s, b :: Total(Upsert(now)(s, b).0) == |b|
  {
    forall s, b ensures Total(Upsert(now)(s, b).0) == |b| {
      UpsertCounts(s, b, now);
    }
  }

  /**
   * The ledger after a run: a completed run whose ledger write went through
   * records the clock `finish` read after the harvest, not the one the run
   * started from, and one more update; any other run leaves the ledger as it
   * was.
   */
  lemma RunLedger(st: Store, batches: seq<seq<PaperRecord>>, completed: bool, stamp: DateTime, finish: DateTime)
    ensures var (result, st') := RunOutcome(st, batches, completed, stamp, finish);
      var count := if st.graph.ledger.Some? then st.graph.ledger.value.updateCount else 0;
      (result.Completed? ==> st'.graph.ledger == Some(Ledger(finish, count + 1)))
      && (!result.Completed? ==> st'.graph.ledger == st.graph.ledger)
      && (result.Completed? <==> completed && RunLedgerWrites(st, batches, stamp, finish))
  {
    UpsertStepKeepsLedger(stamp);
    ProcessBatchesKeepsLedger(st, batches, Upsert(stamp), |batches|);
    var st1 := ProcessBatches(st, batches, Upsert(stamp), |batches|).1;
    assert st1.graph.ledger == st.graph.ledger;
    if completed {
      RecordUpdateEffect(st1.graph, finish);
    }
  }

  /** The ledger write after the batches goes through. */
  predicate RunLedgerWrites(st: Store, batches: seq<seq<PaperRecord>>, stamp: DateTime, finish: DateTime) {
    Run(ProcessBatches(st, batches, Upsert(stamp), |batches|).1, RecordUpdate(finish)).0.Done?
  }

  /** The totals a run reports count every converted record once. */
  lemma RunCounts(st: Store, batches: seq<seq<PaperRecord>>, completed: bool, stamp: DateTime, finish: DateTime)
    ensures var result := RunOutcome(st, batches, completed, stamp, finish).0;
      (result.Completed? || result.StillHarvesting?) ==> Total(result.stats) == BatchesSize(batches, |batches|)
  {
    UpsertStepCounts(stamp);
    ProcessBatchesCounts(st, batches, Upsert(stamp), |batches|);
  }

  // ---------------------------------------------------------------- deleted records

  /** Deleting one paper whose `MATCH` finds nothing still counts it as deleted and leaves the graph alone. */
  lemma DeleteMissingCounts(st: Store, p: PaperRecord)
    requires p.id.None? || p.id.value !in st.graph.papers
    requires st.faults == [] || !st.faults[0]
    ensures DeleteRun(st, [p], 1) == (Store(st.graph, Tail(st.faults)), 1, 0)
  {
    DetachDeleteMissing(st.graph, p.id);
  }

  /**
   * As written, a deleted header parses without an `arxiv_id`, so the
   * converted record has no id and its `DETACH DELETE` matches nothing: the
   * paper stays in the graph although the batch counts it as deleted.
   */
  lemma DeletedRecordKeepsPaperAsWritten(st: Store, e: RecordElem)
    requires IsDeletedHeader(e) && e.header.value.identifier.Some? && e.header.value.datestamp.Some?
    requires st.faults == [] || !st.faults[0]
    ensures var p := Converted(ParseRecordAsWritten(e).value).value;
      p.id.None? && DeleteRun(st, [p], 1) == (Store(st.graph, Tail(st.faults)), 1, 0)
  {
    var rec := ParseRecordAsWritten(e).value;
    assert Get(rec, "arxiv_id").None?;
    ConvertDeleted(rec);
    DeleteMissingCounts(st, Converted(rec).value);
  }

  /**
   * With the arXiv id taken from the deleted header's identifier, the
   * converted record names the paper, and deleting it removes the paper from
   * the graph.
   */
  lemma DeletedRecordRemovesPaper(st: Store, e: RecordElem)
    requires IsDeletedHeader(e) && e.header.value.identifier.Some? && e.header.value.datestamp.Some?
    requires e.header.value.identifier.value.Some? && ':' in e.header.value.identifier.value.value
    requires st.faults == [] || !st.faults[0]
    ensures var p := Converted(ParseRecord(e).value).value;
      var k := ArxivIdOf(e.header.value.identifier.value.value).value;
      var (st', deleted, errors) := DeleteRun(st, [p], 1);
      p.id == Some(k) && k !in st'.graph.papers && deleted == 1 && errors == 0
  {
    var k := ArxivIdOf(e.header.value.identifier.value.value).value;
    var rec := ParseRecord(e).value;
    assert rec == ParseRecordAsWritten(e).value["arxiv_id" := Scalar(Some(k))];
    assert Get(rec, "status") == Some(Scalar(Some("deleted")));
    assert IdOf(rec) == Some(k);
    ConvertDeleted(rec);
    if k in st.graph.papers {
      DetachDeleteEffect(st.graph, k);
    } else {
      DetachDeleteMissing(st.graph, Some(k));
    }
  }
}
