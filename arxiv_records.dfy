/**
 * An arXiv paper record as the loaders and the updater read it, and the rules
 * they share for turning one into graph rows: the author's display name, the
 * category tokens and the update date.
 */
module ArxivRecords {
  import opened Common
  import opened Dates
  import opened Graph

  /**
   * A paper dictionary, each field as `dict.get` returns it with the default
   * the code passes (`''` for title, abstract and submitter, `[]` for
   * `authors_parsed`, `''` for categories, `None` otherwise). A record whose
   * `id` key is missing is represented with a null id: both make the batch fail
   * before any change.
   */
  datatype PaperRecord = PaperRecord(
    status: Text, id: Text, title: Value, abstractText: Value, submitter: Value,
    journalRef: Value, doi: Text, reportNo: Value, license: Value,
    updateDate: Value, authorsParsed: seq<seq<string>>, categories: Text)

  predicate IsDeleted(p: PaperRecord) {
    p.status == Some("deleted")
  }

  // ---------------------------------------------------------------- names

  /** `f"{first} {last}".strip()`, then `f" {suffix}"` appended when the suffix is non-empty. */
  function FullName(author: seq<string>): string {
    var last := if |author| > 0 then author[0] else "";
    var first := if |author| > 1 then author[1] else "";
    var suffix := if |author| > 2 then author[2] else "";
    var name := Strip(first + " " + last);
    if suffix != "" then name + " " + suffix else name
  }

  /** The display names a record contributes, in order, empty names dropped. */
  function AuthorNames(authors: seq<seq<string>>): (names: seq<string>)
    ensures forall i :: 0 <= i < |names| ==> names[i] != ""
    ensures |names| <= |authors|
    decreases |authors|
  {
    if authors == [] then []
    else
      var rest := AuthorNames(authors[..|authors| - 1]);
      var n := FullName(authors[|authors| - 1]);
      if n != "" then rest + [n] else rest
  }

  /** The names of two runs of author entries are the names of each, in order. */
  lemma {:induction false} AuthorNamesAppend(xs: seq<seq<string>>, ys: seq<seq<string>>)
    ensures AuthorNames(xs + ys) == AuthorNames(xs) + AuthorNames(ys)
    decreases |ys|
  {
    if ys == [] {
      assert xs + ys == xs;
    } else {
      var init := ys[..|ys| - 1];
      assert (xs + ys)[..|xs + ys| - 1] == xs + init;
      assert (xs + ys)[|xs + ys| - 1] == ys[|ys| - 1];
      AuthorNamesAppend(xs, init);
    }
  }

  /** The names from entry `i` on: entry `i`'s, if it is not empty, then the rest. */
  lemma AuthorNamesFrom(authors: seq<seq<string>>, i: nat)
    requires i < |authors|
    ensures AuthorNames(authors[i..])
         == (if FullName(authors[i]) != "" then [FullName(authors[i])] else []) + AuthorNames(authors[i + 1..])
  {
    assert authors[i..] == [authors[i]] + authors[i + 1..];
    assert [authors[i]][..0] == [];
    AuthorNamesAppend([authors[i]], authors[i + 1..]);
  }

  /** A name is kept exactly when one of its parts has a non-whitespace character or it has a suffix. */
  lemma FullNameEmpty(author: seq<string>)
    ensures FullName(author) == "" <==>
      (|author| <= 2 || author[2] == "")
      && NoNonSpace(if |author| > 1 then author[1] else "")
      && NoNonSpace(if |author| > 0 then author[0] else "")
  {
    var last := if |author| > 0 then author[0] else "";
    var first := if |author| > 1 then author[1] else "";
    StripEmpty(first + " " + last);
    NoNonSpaceAround(first, last);
  }

  /** Two parts joined by a space are all whitespace exactly when both parts are. */
  lemma NoNonSpaceAround(first: string, last: string)
    ensures NoNonSpace(first + " " + last) <==> NoNonSpace(first) && NoNonSpace(last)
  {
    var t := first + " " + last;
    if NoNonSpace(first) && NoNonSpace(last) {
      forall i | 0 <= i < |t| ensures IsSpace(t[i]) {
        if i < |first| { assert t[i] == first[i]; }
        else if i > |first| { assert t[i] == last[i - |first| - 1]; }
      }
    }
    if !NoNonSpace(first) {
      var i :| 0 <= i < |first| && !IsSpace(first[i]);
      assert t[i] == first[i];
    }
    if !NoNonSpace(last) {
      var i :| 0 <= i < |last| && !IsSpace(last[i]);
      assert t[|first| + 1 + i] == last[i];
    }
  }

  /** Every character is whitespace. */
  predicate NoNonSpace(s: string) {
    forall i :: 0 <= i < |s| ==> IsSpace(s[i])
  }

  lemma StripEmpty(s: string)
    ensures Strip(s) == "" <==> NoNonSpace(s)
  {
    var l := StripLeft(s);
    StripLeftDrops(s);
    if l != [] {
      StripRightDrops(l);
      assert !IsSpace(l[0]);
      assert s[|s| - |l|] == l[0];
    }
  }

  // ---------------------------------------------------------------- categories

  /** `[c.strip() for c in pieces if c.strip()]`. */
  function StrippedNonEmpty(pieces: seq<string>): (r: seq<string>)
    ensures forall i :: 0 <= i < |r| ==> r[i] != ""
    decreases |pieces|
  {
    if pieces == [] then []
    else
      var rest := StrippedNonEmpty(pieces[..|pieces| - 1]);
      var c := Strip(pieces[|pieces| - 1]);
      if c != "" then rest + [c] else rest
  }

  /** The category ids of a `categories` string: nothing when it is falsy, else its space-separated tokens. */
  function CategoryIds(categories: Text): seq<string> {
    if Truthy(categories) then StrippedNonEmpty(SplitOn(categories.value, ' ')) else []
  }

  /** Category ids joined by single spaces come back unchanged. */
  lemma CategoryIdsOfJoin(ids: seq<string>)
    requires AllWords(ids)
    ensures CategoryIds(Some(Join(ids, " "))) == ids
  {
    if ids != [] {
      forall i | 0 <= i < |ids| ensures ' ' !in ids[i] {
        WordHasNoBlank(ids[i]);
      }
      assert " " == [' '];
      SplitOnJoin(ids, ' ');
      StrippedWords(ids);
      JoinNonEmpty(ids);
    }
  }

  lemma WordHasNoBlank(w: string)
    requires IsWord(w)
    ensures ' ' !in w
  {
  }

  lemma JoinNonEmpty(ids: seq<string>)
    requires ids != [] && ids[0] != ""
    ensures Join(ids, " ") != ""
  {
    if |ids| > 1 {
      assert |Join(ids, " ")| >= |ids[0]|;
    }
  }

  lemma {:induction false} StrippedWords(ws: seq<string>)
    requires AllWords(ws)
    ensures StrippedNonEmpty(ws) == ws
    decreases |ws|
  {
    if ws != [] {
      var w := ws[|ws| - 1];
      StripOfUnpadded(w);
      StrippedWords(ws[..|ws| - 1]);
      assert ws == ws[..|ws| - 1] + [w];
    }
  }

  // ---------------------------------------------------------------- dates

  /** Why row preparation raised: `strptime` was handed a non-string. */
  datatype PrepareError = DateTypeError

  /**
   * The `update_date` stored for a record: nothing when the field is falsy,
   * the parsed day at midnight, or nothing when the text does not parse; a
   * list raises.
   */
  function UpdateDateOf(v: Value): (r: Result<Option<DateTime>, PrepareError>)
    ensures r.Err? <==> v.Many? && v.texts != []
    ensures r.Ok? && r.value.Some? ==> ValidDateTime(r.value.value) && r.value.value.second == 0
  {
    if !TruthyValue(v) then Ok(None)
    else match v
      case Scalar(t) =>
        (match ParseYmd(t.value) case None => Ok(None) case Some(d) => Ok(Some(Midnight(d))))
      case Many(_) => Err(DateTypeError)
  }

  /** A `YYYY-MM-DD` date field round-trips into the stored timestamp. */
  lemma UpdateDateOfFormatted(d: Date)
    requires ValidDate(d)
    ensures UpdateDateOf(Scalar(Some(FormatYmd(d)))) == Ok(Some(Midnight(d)))
  {
    ParseFormatYmd(d);
  }

  // ---------------------------------------------------------------- rows

  /** The record's `update_date` is a text or falsy, so converting it does not raise. */
  predicate DateOk(p: PaperRecord) {
    !(p.updateDate.Many? && p.updateDate.texts != [])
  }

  /** None of the first `n` records makes the date conversion raise. */
  predicate DatesOkUpTo(papers: seq<PaperRecord>, n: nat)
    requires n <= |papers|
  {
    n == 0 || (DatesOkUpTo(papers, n - 1) && DateOk(papers[n - 1]))
  }

  predicate DatesOk(papers: seq<PaperRecord>) {
    DatesOkUpTo(papers, |papers|)
  }

  /** A batch converts without raising exactly when every record's date does. */
  lemma {:induction false} DatesOkUpToAll(papers: seq<PaperRecord>, n: nat)
    requires n <= |papers|
    ensures DatesOkUpTo(papers, n) <==> forall i :: 0 <= i < n ==> DateOk(papers[i])
    decreases n
  {
    if n > 0 {
      DatesOkUpToAll(papers, n - 1);
    }
  }

  /** The MERGE row of a record (used only when its date does not raise). */
  function RowOf(p: PaperRecord): PaperRow {
    var date := match UpdateDateOf(p.updateDate) case Ok(d) => d case Err(_) => None;
    PaperRow(p.id, p.title, p.abstractText, p.submitter, p.journalRef, p.doi,
             p.reportNo, p.license, date)
  }

  /** The MERGE rows of the first `n` records. */
  function RowsUpTo(papers: seq<PaperRecord>, n: nat): (rows: seq<PaperRow>)
    requires n <= |papers|
    ensures |rows| == n
    ensures forall i :: 0 <= i < n ==> rows[i] == RowOf(papers[i])
  {
    if n == 0 then [] else RowsUpTo(papers, n - 1) + [RowOf(papers[n - 1])]
  }

  function Rows(papers: seq<PaperRecord>): seq<PaperRow> {
    RowsUpTo(papers, |papers|)
  }

  /**
   * The record's paper MERGE row can be stored: the record has an id, and
   * none of its list fields (a repeated element with an empty one among
   * them) holds a null.
   */
  predicate StorableRecord(p: PaperRecord) {
    p.id.Some? && StorableValue(p.title) && StorableValue(p.abstractText) && StorableValue(p.submitter)
    && StorableValue(p.journalRef) && StorableValue(p.reportNo) && StorableValue(p.license)
  }

  /** A batch's rows can be stored exactly when each of its records can. */
  lemma RowsStorable(papers: seq<PaperRecord>)
    ensures AllStorable(Rows(papers)) <==> forall i :: 0 <= i < |papers| ==> StorableRecord(papers[i])
  {
    var rows := Rows(papers);
    assert forall i :: 0 <= i < |papers| ==> rows[i] == RowOf(papers[i]);
  }

  /** `(author name, paper id)` for every kept author of the batch, in order. */
  function AuthorRels(papers: seq<PaperRecord>): seq<(string, Text)> {
    FlatMap(papers, RecordAuthorRels, |papers|)
  }

  function PairNames(names: seq<string>, id: Text): (r: seq<(string, Text)>)
    ensures |r| == |names| && forall i :: 0 <= i < |r| ==> r[i] == (names[i], id)
  {
    if names == [] then [] else [(names[0], id)] + PairNames(names[1..], id)
  }

  /** `(paper id, category id)` for every category token of the batch, in order. */
  function CategoryRels(papers: seq<PaperRecord>): seq<(Text, string)> {
    FlatMap(papers, RecordCategoryRels, |papers|)
  }

  function PairCategories(id: Text, cats: seq<string>): (r: seq<(Text, string)>)
    ensures |r| == |cats| && forall i :: 0 <= i < |r| ==> r[i] == (id, cats[i])
  {
    if cats == [] then [] else [(id, cats[0])] + PairCategories(id, cats[1..])
  }

  /** The rows of a batch, built record by record as the loaders' preparation loop does. */
  datatype BatchRows = BatchRows(
    papers: seq<PaperRow>, authorRels: seq<(string, Text)>, categoryRels: seq<(Text, string)>)

  /**
   * The preparation loop: a row per record, and its authors and categories.
   * `Err` when a record's `update_date` makes `strptime` raise.
   */
  method PrepareBatch(papers: seq<PaperRecord>) returns (r: Result<BatchRows, PrepareError>)
    ensures r.Err? <==> !DatesOk(papers)
    ensures r.Ok? ==> r.value == BatchRows(Rows(papers), AuthorRels(papers), CategoryRels(papers))
  {
    var rows: seq<PaperRow> := [];
    var authorRels: seq<(string, Text)> := [];
    var categoryRels: seq<(Text, string)> := [];
    var i := 0;
    while i < |papers|
      invariant 0 <= i <= |papers|
      invariant DatesOkUpTo(papers, i)
      invariant rows == RowsUpTo(papers, i)
      invariant authorRels == FlatMap(papers, RecordAuthorRels, i)
      invariant categoryRels == FlatMap(papers, RecordCategoryRels, i)
    {
      var p := papers[i];
      if p.updateDate.Many? && p.updateDate.texts != [] {
        // `strptime` (or `str.replace`) on a list raises
        DatesOkUpToAll(papers, |papers|);
        return Err(DateTypeError);
      }
      rows := rows + [RowOf(p)];
      authorRels := authorRels + RecordAuthorRels(p);
      categoryRels := categoryRels + RecordCategoryRels(p);
      i := i + 1;
    }
    return Ok(BatchRows(rows, authorRels, categoryRels));
  }

  /** The first components of rows, in order (the author names, or the paper ids of category rows). */
  function Firsts<A, B>(rels: seq<(A, B)>): (xs: seq<A>)
    ensures |xs| == |rels| && forall i :: 0 <= i < |rels| ==> xs[i] == rels[i].0
  {
    if rels == [] then [] else [rels[0].0] + Firsts(rels[1..])
  }

  /** The second components of rows, in order (the paper ids of author rows, or the category ids). */
  function Seconds<A, B>(rels: seq<(A, B)>): (ys: seq<B>)
    ensures |ys| == |rels| && forall i :: 0 <= i < |rels| ==> ys[i] == rels[i].1
  {
    if rels == [] then [] else [rels[0].1] + Seconds(rels[1..])
  }

  /** The author relationship rows one record contributes. */
  function RecordAuthorRels(p: PaperRecord): seq<(string, Text)> {
    PairNames(AuthorNames(p.authorsParsed), p.id)
  }

  predicate WroteBy(p: PaperRecord, e: (string, Text)) {
    e in RecordAuthorRels(p)
  }

  /** The category relationship rows one record contributes. */
  function RecordCategoryRels(p: PaperRecord): seq<(Text, string)> {
    PairCategories(p.id, CategoryIds(p.categories))
  }

  predicate CategorisedBy(p: PaperRecord, e: (Text, string)) {
    e in RecordCategoryRels(p)
  }

  lemma InPairNames(names: seq<string>, id: Text, e: (string, Text))
    ensures e in PairNames(names, id) <==> e.1 == id && e.0 in names
  {
    var pairs := PairNames(names, id);
    if e in pairs {
      var j :| 0 <= j < |pairs| && pairs[j] == e;
      assert names[j] == e.0;
    }
    if e.1 == id && e.0 in names {
      var j :| 0 <= j < |names| && names[j] == e.0;
      assert pairs[j] == e;
    }
  }

  lemma InPairCategories(id: Text, cats: seq<string>, e: (Text, string))
    ensures e in PairCategories(id, cats) <==> e.0 == id && e.1 in cats
  {
    var pairs := PairCategories(id, cats);
    if e in pairs {
      var j :| 0 <= j < |pairs| && pairs[j] == e;
      assert cats[j] == e.1;
    }
    if e.0 == id && e.1 in cats {
      var j :| 0 <= j < |cats| && cats[j] == e.1;
      assert pairs[j] == e;
    }
  }

  // ---------------------------------------------------------------- batch effects

  /** The rows the preparation loop builds for a batch of records. */
  function BatchOf(papers: seq<PaperRecord>): BatchRows {
    BatchRows(Rows(papers), AuthorRels(papers), CategoryRels(papers))
  }

  /** The WROTE edges the rows add: one per row whose paper exists. */
  function AddedWrote(a: seq<(string, Text)>, papers: map<string, Paper>): set<(string, string)> {
    set i | 0 <= i < |a| && a[i].1.Some? && a[i].1.value in papers :: (a[i].0, a[i].1.value)
  }

  /** The HAS_CATEGORY edges the rows add: one per row whose paper exists. */
  function AddedHasCategory(c: seq<(Text, string)>, papers: map<string, Paper>): set<(string, string)> {
    set i | 0 <= i < |c| && c[i].0.Some? && c[i].0.value in papers :: (c[i].0.value, c[i].1)
  }

  /** The names of the author rows are their first components. */
  lemma FirstsNames(a: seq<(string, Text)>)
    ensures (set i | 0 <= i < |Firsts(a)| :: Firsts(a)[i]) == (set i | 0 <= i < |a| :: a[i].0)
  {
    var names := Firsts(a);
    forall i | 0 <= i < |a| ensures a[i].0 in (set j | 0 <= j < |names| :: names[j]) {
      assert names[i] == a[i].0;
    }
  }

  /** The first components of the rows, by index and by row. */
  lemma FirstsRows(a: seq<(string, Text)>)
    ensures (set i | 0 <= i < |a| :: a[i].0) == (set p | p in a :: p.0)
  {
    forall p | p in a ensures p.0 in (set i | 0 <= i < |a| :: a[i].0) {
      var i :| 0 <= i < |a| && a[i] == p;
    }
  }

  /** The second components of the rows, by index and by row. */
  lemma SecondsRows(c: seq<(Text, string)>)
    ensures (set i | 0 <= i < |c| :: c[i].1) == (set p | p in c :: p.1)
  {
    forall p | p in c ensures p.1 in (set i | 0 <= i < |c| :: c[i].1) {
      var i :| 0 <= i < |c| && c[i] == p;
    }
  }

  lemma AuthorsStep(g: Graph, a: seq<(string, Text)>)
    ensures ApplyAll(g, if a != [] then [MergeAuthors(Firsts(a))] else [])
         == Some(g.(authors := g.authors + (set i | 0 <= i < |a| :: a[i].0)))
  {
    if a == [] {
      FirstsRows(a);
      assert (set p | p in a :: p.0) == {};
      assert g.(authors := g.authors + {}) == g;
    } else {
      MergeAuthorsEffect(g, Firsts(a));
      FirstsNames(a);
    }
  }

  /** The ids of the category rows are their second components. */
  lemma SecondsIds(c: seq<(Text, string)>)
    ensures (set i | 0 <= i < |Seconds(c)| :: Seconds(c)[i]) == (set i | 0 <= i < |c| :: c[i].1)
  {
    var ids := Seconds(c);
    forall i | 0 <= i < |c| ensures c[i].1 in (set j | 0 <= j < |ids| :: ids[j]) {
      assert ids[i] == c[i].1;
    }
  }

  lemma CategoriesStep(g: Graph, c: seq<(Text, string)>)
    ensures ApplyAll(g, if c != [] then [MergeCategories(Seconds(c))] else [])
         == Some(g.(categories := g.categories + (set i | 0 <= i < |c| :: c[i].1)))
  {
    if c == [] {
      SecondsRows(c);
      assert (set p | p in c :: p.1) == {};
      assert g.(categories := g.categories + {}) == g;
    } else {
      MergeCategoriesEffect(g, Seconds(c));
      SecondsIds(c);
    }
  }

  // ---------------------------------------------------------------- the snapshot file

  /** A line of the snapshot: one the JSON decoder rejects, or a record. */
  datatype Line = Malformed | Decoded(paper: PaperRecord)

  function DecodedPaper(l: Line): Option<PaperRecord> {
    if l.Decoded? then Some(l.paper) else None
  }

  /** The records of the first `n` lines that decode, in order. */
  function DecodedUpTo(lines: seq<Line>, n: nat): seq<PaperRecord>
    requires n <= |lines|
  {
    FilterMap(lines, DecodedPaper, n)
  }

  /** `if limit and count >= limit`: no limit is `None` or `0`. */
  predicate LimitReached(limit: Option<int>, count: nat) {
    limit.Some? && limit.value != 0 && count >= limit.value
  }

  // ---------------------------------------------------------------- membership

  /** Some record of the batch is for paper `k`. */
  predicate Names(papers: seq<PaperRecord>, k: string) {
    exists i :: 0 <= i < |papers| && papers[i].id == Some(k)
  }

  /** `name` is a kept author of some record of the batch for paper `k`. */
  predicate AuthorOf(papers: seq<PaperRecord>, name: string, k: string) {
    exists i :: 0 <= i < |papers| && papers[i].id == Some(k) && name in AuthorNames(papers[i].authorsParsed)
  }

  /** `cat` is a category token of some record of the batch for paper `k`. */
  predicate CategoryOf(papers: seq<PaperRecord>, k: string, cat: string) {
    exists i :: 0 <= i < |papers| && papers[i].id == Some(k) && cat in CategoryIds(papers[i].categories)
  }

  lemma AuthorRelSource(papers: seq<PaperRecord>, e: (string, Text))
    requires e in AuthorRels(papers)
    ensures exists i :: 0 <= i < |papers| && papers[i].id == e.1 && e.0 in AuthorNames(papers[i].authorsParsed)
  {
    var i := FlatMapSource(papers, RecordAuthorRels, |papers|, e);
    InPairNames(AuthorNames(papers[i].authorsParsed), papers[i].id, e);
  }

  lemma AuthorRelHas(papers: seq<PaperRecord>, i: nat, name: string)
    requires i < |papers| && name in AuthorNames(papers[i].authorsParsed)
    ensures (name, papers[i].id) in AuthorRels(papers)
  {
    InPairNames(AuthorNames(papers[i].authorsParsed), papers[i].id, (name, papers[i].id));
    FlatMapHas(papers, RecordAuthorRels, |papers|, i, (name, papers[i].id));
  }

  lemma CategoryRelSource(papers: seq<PaperRecord>, e: (Text, string))
    requires e in CategoryRels(papers)
    ensures exists i :: 0 <= i < |papers| && papers[i].id == e.0 && e.1 in CategoryIds(papers[i].categories)
  {
    var i := FlatMapSource(papers, RecordCategoryRels, |papers|, e);
    InPairCategories(papers[i].id, CategoryIds(papers[i].categories), e);
  }

  lemma CategoryRelHas(papers: seq<PaperRecord>, i: nat, cat: string)
    requires i < |papers| && cat in CategoryIds(papers[i].categories)
    ensures (papers[i].id, cat) in CategoryRels(papers)
  {
    InPairCategories(papers[i].id, CategoryIds(papers[i].categories), (papers[i].id, cat));
    FlatMapHas(papers, RecordCategoryRels, |papers|, i, (papers[i].id, cat));
  }

  /** The WROTE rows of a batch add `(name, k)` exactly when `name` is a kept author of a record for `k` and paper `k` exists. */
  lemma AddedWroteOf(papers: seq<PaperRecord>, m: map<string, Paper>, name: string, k: string)
    ensures (name, k) in AddedWrote(AuthorRels(papers), m) <==> AuthorOf(papers, name, k) && k in m
  {
    var a := AuthorRels(papers);
    if (name, k) in AddedWrote(a, m) {
      var j :| 0 <= j < |a| && a[j].1.Some? && a[j].1.value in m && (a[j].0, a[j].1.value) == (name, k);
      AuthorRelSource(papers, a[j]);
    }
    if AuthorOf(papers, name, k) && k in m {
      var i :| 0 <= i < |papers| && papers[i].id == Some(k) && name in AuthorNames(papers[i].authorsParsed);
      AuthorRelHas(papers, i, name);
      var j :| 0 <= j < |a| && a[j] == (name, Some(k));
      assert (name, k) in AddedWrote(a, m);
    }
  }

  /** The HAS_CATEGORY rows of a batch add `(k, cat)` exactly when `cat` is a token of a record for `k` and paper `k` exists. */
  lemma AddedHasCategoryOf(papers: seq<PaperRecord>, m: map<string, Paper>, k: string, cat: string)
    ensures (k, cat) in AddedHasCategory(CategoryRels(papers), m) <==> CategoryOf(papers, k, cat) && k in m
  {
    var c := CategoryRels(papers);
    if (k, cat) in AddedHasCategory(c, m) {
      var j :| 0 <= j < |c| && c[j].0.Some? && c[j].0.value in m && (c[j].0.value, c[j].1) == (k, cat);
      CategoryRelSource(papers, c[j]);
    }
    if CategoryOf(papers, k, cat) && k in m {
      var i :| 0 <= i < |papers| && papers[i].id == Some(k) && cat in CategoryIds(papers[i].categories);
      CategoryRelHas(papers, i, cat);
      var j :| 0 <= j < |c| && c[j] == (Some(k), cat);
      assert (k, cat) in AddedHasCategory(c, m);
    }
  }

  /** Every record's paper exists once the batch's rows are merged. */
  lemma RecordMerged(papers: seq<PaperRecord>, m: map<string, Paper>, stamp: Option<DateTime>, k: string)
    requires AllKeyed(Rows(papers)) && Names(papers, k)
    ensures k in MergeRows(m, Rows(papers), stamp)
  {
    var i :| 0 <= i < |papers| && papers[i].id == Some(k);
    MergeRowsAdds(m, Rows(papers), stamp, i);
  }
}
