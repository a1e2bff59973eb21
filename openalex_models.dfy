/**
 * The OpenAlex record shapes of `src/data_models/openalex.py`: a decoded JSON
 * object is validated into a record the way the pydantic models do it,
 * required fields must be present with the right type, optional fields and
 * fields with defaults may be left out, and keys the model does not name are
 * ignored. The one mapping function turns an OpenAlex institution into the
 * graph's `Organization` node.
 */
module OpenAlexModels {
  import opened Common

  // ---------------------------------------------------------------- JSON

  /** A value `json.loads` produces. */
  datatype Json =
    | JNull
    | JBool(b: bool)
    | JInt(i: int)
    | JReal(r: real)
    | JStr(s: string)
    | JArr(items: seq<Json>)
    | JObj(fields: map<string, Json>)

  type Object = map<string, Json>

  /** A required `str` field: present and a string. */
  function ReqStr(o: Object, k: string): Option<string> {
    if k in o && o[k].JStr? then Some(o[k].s) else None
  }

  /** An `Optional[str] = None` field: absent or `null` is `None`; a string is kept; anything else is invalid. */
  function OptStr(o: Object, k: string): Option<Text> {
    if k !in o || o[k].JNull? then Some(None)
    else if o[k].JStr? then Some(Some(o[k].s))
    else None
  }

  /** An `Optional[int] = None` field. */
  function OptInt(o: Object, k: string): Option<Option<int>> {
    if k !in o || o[k].JNull? then Some(None)
    else if o[k].JInt? then Some(Some(o[k].i))
    else None
  }

  /** An `int` field with a default: absent is the default; `null` is invalid. */
  function IntOr(o: Object, k: string, d: int): Option<int> {
    if k !in o then Some(d)
    else if o[k].JInt? then Some(o[k].i)
    else None
  }

  /** A `bool` field with a default. */
  function BoolOr(o: Object, k: string, d: bool): Option<bool> {
    if k !in o then Some(d)
    else if o[k].JBool? then Some(o[k].b)
    else None
  }

  /** A `float` field with a default; a JSON integer is accepted as a float. */
  function RealOr(o: Object, k: string, d: real): Option<real> {
    if k !in o then Some(d)
    else if o[k].JReal? then Some(o[k].r)
    else if o[k].JInt? then Some(o[k].i as real)
    else None
  }

  predicate AllStrings(items: seq<Json>) {
    forall i :: 0 <= i < |items| ==> items[i].JStr?
  }

  function Strings(items: seq<Json>): (r: seq<string>)
    requires AllStrings(items)
    ensures |r| == |items| && forall i :: 0 <= i < |items| ==> r[i] == items[i].s
  {
    seq(|items|, i requires 0 <= i < |items| => items[i].s)
  }

  function StrArr(ss: seq<string>): (r: seq<Json>)
    ensures |r| == |ss| && forall i :: 0 <= i < |ss| ==> r[i] == JStr(ss[i])
  {
    seq(|ss|, i requires 0 <= i < |ss| => JStr(ss[i]))
  }

  /** A `List[str] = Field(default_factory=list)` field: absent is `[]`; otherwise a list of strings. */
  function StrListOr(o: Object, k: string): Option<seq<string>> {
    if k !in o then Some([])
    else if o[k].JArr? && AllStrings(o[k].items) then Some(Strings(o[k].items))
    else None
  }

  function TextJson(t: Text): Json {
    if t.Some? then JStr(t.value) else JNull
  }

  function IntOptJson(t: Option<int>): Json {
    if t.Some? then JInt(t.value) else JNull
  }

  // ---------------------------------------------------------------- OpenAlexWork

  /**
   * `OpenAlexWork` without its nested record lists (authorships, concepts,
   * topics, locations): `type` is named `kind` here.
   */
  datatype OpenAlexWork = OpenAlexWork(
    id: string, doi: Text, displayName: Text, title: Text,
    publicationYear: Option<int>, publicationDate: Text, language: Text, kind: string,
    authorsCount: int, institutionsDistinctCount: int, countriesDistinctCount: int,
    referencedWorks: seq<string>, referencedWorksCount: int, citedByCount: int,
    isRetracted: bool, isParatext: bool, updatedDate: string, createdDate: string)

  /** The keys `OpenAlexWork` reads; any other key of the object is ignored. */
  const WorkKeys: set<string> := {
    "id", "doi", "display_name", "title", "publication_year", "publication_date", "language", "type",
    "authors_count", "institutions_distinct_count", "countries_distinct_count",
    "referenced_works", "referenced_works_count", "cited_by_count",
    "is_retracted", "is_paratext", "updated_date", "created_date"}

  /** The nested-record fields: lists of records with a `[]` default, and optional records. */
  const RecordListKeys: set<string> := {"authorships", "concepts", "topics", "locations"}
  const OptRecordKeys: set<string> := {"primary_topic", "primary_location", "best_oa_location"}

  /** Every key `OpenAlexWork` declares. */
  const WorkFieldKeys: set<string> := WorkKeys + RecordListKeys + OptRecordKeys

  /** A `List[Record] = Field(default_factory=list)` field: absent, or a list of objects. */
  predicate RecordListOk(o: Object, k: string) {
    k !in o || (o[k].JArr? && forall i :: 0 <= i < |o[k].items| ==> o[k].items[i].JObj?)
  }

  /** An `Optional[Record] = None` field: absent, `null` or an object. */
  predicate OptRecordOk(o: Object, k: string) {
    k !in o || o[k].JNull? || o[k].JObj?
  }

  /** The shapes of the seven nested-record fields; the records' own fields are not read. */
  predicate NestedOk(o: Object) {
    RecordListOk(o, "authorships") && RecordListOk(o, "concepts") && RecordListOk(o, "topics")
    && RecordListOk(o, "locations") && OptRecordOk(o, "primary_topic") && OptRecordOk(o, "primary_location")
    && OptRecordOk(o, "best_oa_location")
  }

  /** `OpenAlexWork(**data)`: the record, or `None` when validation raises. */
  function ParseWork(o: Object): Option<OpenAlexWork> {
    var id := ReqStr(o, "id");
    var doi := OptStr(o, "doi");
    var displayName := OptStr(o, "display_name");
    var title := OptStr(o, "title");
    var year := OptInt(o, "publication_year");
    var date := OptStr(o, "publication_date");
    var language := OptStr(o, "language");
    var kind := ReqStr(o, "type");
    var authors := IntOr(o, "authors_count", 0);
    var institutions := IntOr(o, "institutions_distinct_count", 0);
    var countries := IntOr(o, "countries_distinct_count", 0);
    var refs := StrListOr(o, "referenced_works");
    var refsCount := IntOr(o, "referenced_works_count", 0);
    var citedBy := IntOr(o, "cited_by_count", 0);
    var retracted := BoolOr(o, "is_retracted", false);
    var paratext := BoolOr(o, "is_paratext", false);
    var updated := ReqStr(o, "updated_date");
    var created := ReqStr(o, "created_date");
    if id.Some? && doi.Some? && displayName.Some? && title.Some? && year.Some? && date.Some?
       && language.Some? && kind.Some? && authors.Some? && institutions.Some? && countries.Some?
       && refs.Some? && refsCount.Some? && citedBy.Some? && retracted.Some? && paratext.Some?
       && updated.Some? && created.Some? && NestedOk(o)
    then Some(OpenAlexWork(id.value, doi.value, displayName.value, title.value, year.value, date.value,
                           language.value, kind.value, authors.value, institutions.value, countries.value,
                           refs.value, refsCount.value, citedBy.value, retracted.value, paratext.value,
                           updated.value, created.value))
    else None
  }

  /** The JSON object `model_dump` would give for a work. */
  function WorkObject(w: OpenAlexWork): Object {
    map[
      "id" := JStr(w.id), "doi" := TextJson(w.doi), "display_name" := TextJson(w.displayName),
      "title" := TextJson(w.title), "publication_year" := IntOptJson(w.publicationYear),
      "publication_date" := TextJson(w.publicationDate), "language" := TextJson(w.language),
      "type" := JStr(w.kind), "authors_count" := JInt(w.authorsCount),
      "institutions_distinct_count" := JInt(w.institutionsDistinctCount),
      "countries_distinct_count" := JInt(w.countriesDistinctCount),
      "referenced_works" := JArr(StrArr(w.referencedWorks)),
      "referenced_works_count" := JInt(w.referencedWorksCount), "cited_by_count" := JInt(w.citedByCount),
      "is_retracted" := JBool(w.isRetracted), "is_paratext" := JBool(w.isParatext),
      "updated_date" := JStr(w.updatedDate), "created_date" := JStr(w.createdDate)]
  }

  /** A validated work names its four required fields, each a string. */
  lemma ParseWorkRequired(o: Object)
    requires ParseWork(o).Some?
    ensures var w := ParseWork(o).value;
      "id" in o && o["id"] == JStr(w.id)
      && "type" in o && o["type"] == JStr(w.kind)
      && "updated_date" in o && o["updated_date"] == JStr(w.updatedDate)
      && "created_date" in o && o["created_date"] == JStr(w.createdDate)
  {
  }

  /** A field left out of the object takes its default. */
  lemma ParseWorkDefaults(o: Object)
    requires ParseWork(o).Some?
    ensures var w := ParseWork(o).value;
      ("doi" !in o ==> w.doi == None)
      && ("referenced_works" !in o ==> w.referencedWorks == [])
      && ("authors_count" !in o ==> w.authorsCount == 0)
      && ("institutions_distinct_count" !in o ==> w.institutionsDistinctCount == 0)
      && ("countries_distinct_count" !in o ==> w.countriesDistinctCount == 0)
      && ("referenced_works_count" !in o ==> w.referencedWorksCount == 0)
      && ("cited_by_count" !in o ==> w.citedByCount == 0)
      && ("is_retracted" !in o ==> !w.isRetracted)
      && ("is_paratext" !in o ==> !w.isParatext)
  {
  }

  /** The four required fields alone make a work with every default. */
  lemma MinimalWork(id: string, kind: string, updated: string, created: string)
    ensures ParseWork(map["id" := JStr(id), "type" := JStr(kind), "updated_date" := JStr(updated), "created_date" := JStr(created)])
         == Some(OpenAlexWork(id, None, None, None, None, None, None, kind, 0, 0, 0, [], 0, 0, false, false, updated, created))
  {
  }

  /** Leaving out a required field fails validation. */
  lemma WorkNeedsRequired(o: Object, k: string)
    requires k in {"id", "type", "updated_date", "created_date"} && k !in o
    ensures ParseWork(o) == None
  {
  }

  /** A key with the same value in two objects reads the same through every field accessor. */
  lemma SameField(o: Object, o': Object, key: string)
    requires (key in o <==> key in o') && (key in o ==> o[key] == o'[key])
    ensures ReqStr(o, key) == ReqStr(o', key) && OptStr(o, key) == OptStr(o', key) && OptInt(o, key) == OptInt(o', key)
    ensures IntOr(o, key, 0) == IntOr(o', key, 0) && BoolOr(o, key, false) == BoolOr(o', key, false)
    ensures StrListOr(o, key) == StrListOr(o', key)
    ensures RecordListOk(o, key) == RecordListOk(o', key) && OptRecordOk(o, key) == OptRecordOk(o', key)
  {
  }

  /** Keys `OpenAlexWork` does not declare change nothing. */
  lemma WorkIgnoresExtra(o: Object, k: string, v: Json)
    requires k !in WorkFieldKeys
    ensures ParseWork(o[k := v]) == ParseWork(o)
  {
    var o' := o[k := v];
    forall key | key in WorkFieldKeys
      ensures ReqStr(o', key) == ReqStr(o, key) && OptStr(o', key) == OptStr(o, key) && OptInt(o', key) == OptInt(o, key)
      ensures IntOr(o', key, 0) == IntOr(o, key, 0) && BoolOr(o', key, false) == BoolOr(o, key, false)
      ensures StrListOr(o', key) == StrListOr(o, key)
      ensures RecordListOk(o', key) == RecordListOk(o, key) && OptRecordOk(o', key) == OptRecordOk(o, key)
    {
      SameField(o', o, key);
    }
  }

  /** A nested-record list that is not a list, or an optional record that is neither `null` nor an object, fails validation. */
  lemma NestedShapeRejected(o: Object, k: string, v: Json)
    requires (k in RecordListKeys && !v.JArr?) || (k in OptRecordKeys && !v.JNull? && !v.JObj?)
    ensures ParseWork(o[k := v]) == None
  {
    assert !NestedOk(o[k := v]);
  }

  /** The dump's identifying fields read back. */
  lemma WorkObjectIds(w: OpenAlexWork)
    ensures var o := WorkObject(w);
      ReqStr(o, "id") == Some(w.id) && OptStr(o, "doi") == Some(w.doi) && ReqStr(o, "type") == Some(w.kind)
  {
  }

  /** The dump's descriptive fields read back. */
  lemma WorkObjectNames(w: OpenAlexWork)
    ensures var o := WorkObject(w);
      OptStr(o, "display_name") == Some(w.displayName) && OptStr(o, "title") == Some(w.title)
      && OptStr(o, "language") == Some(w.language)
  {
  }

  /** The dump's dates read back. */
  lemma WorkObjectDates(w: OpenAlexWork)
    ensures var o := WorkObject(w);
      OptInt(o, "publication_year") == Some(w.publicationYear)
      && OptStr(o, "publication_date") == Some(w.publicationDate)
      && ReqStr(o, "updated_date") == Some(w.updatedDate) && ReqStr(o, "created_date") == Some(w.createdDate)
  {
  }

  /** The dump's counts, flags and references read back. */
  lemma WorkObjectCounts(w: OpenAlexWork)
    ensures var o := WorkObject(w);
      IntOr(o, "authors_count", 0) == Some(w.authorsCount)
      && IntOr(o, "institutions_distinct_count", 0) == Some(w.institutionsDistinctCount)
      && IntOr(o, "countries_distinct_count", 0) == Some(w.countriesDistinctCount)
      && StrListOr(o, "referenced_works") == Some(w.referencedWorks)
      && IntOr(o, "referenced_works_count", 0) == Some(w.referencedWorksCount)
      && IntOr(o, "cited_by_count", 0) == Some(w.citedByCount)
      && BoolOr(o, "is_retracted", false) == Some(w.isRetracted)
      && BoolOr(o, "is_paratext", false) == Some(w.isParatext)
  {
    assert AllStrings(StrArr(w.referencedWorks));
    assert Strings(StrArr(w.referencedWorks)) == w.referencedWorks;
  }

  /** The dump has no nested-record field. */
  lemma WorkObjectNested(w: OpenAlexWork)
    ensures NestedOk(WorkObject(w))
  {
    RecordListsAbsent(w);
    OptRecordsAbsent(w);
  }

  lemma RecordListsAbsent(w: OpenAlexWork)
    ensures var o := WorkObject(w);
      "authorships" !in o && "concepts" !in o && "topics" !in o && "locations" !in o
  {
  }

  lemma OptRecordsAbsent(w: OpenAlexWork)
    ensures var o := WorkObject(w);
      "primary_topic" !in o && "primary_location" !in o && "best_oa_location" !in o
  {
  }

  /** Dumping a work and validating the dump gives the work back. */
  lemma WorkRoundTrip(w: OpenAlexWork)
    ensures ParseWork(WorkObject(w)) == Some(w)
  {
    WorkObjectIds(w);
    WorkObjectNames(w);
    WorkObjectDates(w);
    WorkObjectCounts(w);
    WorkObjectNested(w);
  }

  // ---------------------------------------------------------------- OpenAlexInstitution

  /** `OpenAlexInstitution`; `type` is named `kind` here. */
  datatype OpenAlexInstitution = OpenAlexInstitution(
    id: string, displayName: string, ror: Text, countryCode: Text, kind: Text, lineage: seq<string>)

  const InstitutionKeys: set<string> := {"id", "display_name", "ror", "country_code", "type", "lineage"}

  function ParseInstitution(o: Object): Option<OpenAlexInstitution> {
    var id := ReqStr(o, "id");
    var name := ReqStr(o, "display_name");
    var ror := OptStr(o, "ror");
    var country := OptStr(o, "country_code");
    var kind := OptStr(o, "type");
    var lineage := StrListOr(o, "lineage");
    if id.Some? && name.Some? && ror.Some? && country.Some? && kind.Some? && lineage.Some?
    then Some(OpenAlexInstitution(id.value, name.value, ror.value, country.value, kind.value, lineage.value))
    else None
  }

  function InstitutionObject(i: OpenAlexInstitution): Object {
    map["id" := JStr(i.id), "display_name" := JStr(i.displayName), "ror" := TextJson(i.ror),
        "country_code" := TextJson(i.countryCode), "type" := TextJson(i.kind),
        "lineage" := JArr(StrArr(i.lineage))]
  }

  /** An institution needs `id` and `display_name`; the rest default to `None` and `[]`. */
  lemma ParseInstitutionDefaults(o: Object)
    ensures ParseInstitution(o).Some? ==>
      var i := ParseInstitution(o).value;
      o["id"] == JStr(i.id) && o["display_name"] == JStr(i.displayName)
      && ("ror" !in o ==> i.ror == None)
      && ("country_code" !in o ==> i.countryCode == None)
      && ("type" !in o ==> i.kind == None)
      && ("lineage" !in o ==> i.lineage == [])
    ensures ("id" !in o || "display_name" !in o) ==> ParseInstitution(o) == None
  {
  }

  lemma InstitutionRoundTrip(i: OpenAlexInstitution)
    ensures ParseInstitution(InstitutionObject(i)) == Some(i)
  {
    assert AllStrings(StrArr(i.lineage));
    assert Strings(StrArr(i.lineage)) == i.lineage;
  }

  // ---------------------------------------------------------------- Organization

  /** The `Organization` node an institution becomes. */
  datatype Organization = Organization(
    openalexId: string, name: string, countryCode: Text, kind: Text, ror: Text, lineageIds: seq<string>)

  function ParseOrganization(o: Object): Option<Organization> {
    var id := ReqStr(o, "openalex_id");
    var name := ReqStr(o, "name");
    var country := OptStr(o, "country_code");
    var kind := OptStr(o, "type");
    var ror := OptStr(o, "ror");
    var lineage := StrListOr(o, "lineage_ids");
    if id.Some? && name.Some? && country.Some? && kind.Some? && ror.Some? && lineage.Some?
    then Some(Organization(id.value, name.value, country.value, kind.value, ror.value, lineage.value))
    else None
  }

  function OrganizationObject(g: Organization): Object {
    map["openalex_id" := JStr(g.openalexId), "name" := JStr(g.name), "country_code" := TextJson(g.countryCode),
        "type" := TextJson(g.kind), "ror" := TextJson(g.ror), "lineage_ids" := JArr(StrArr(g.lineageIds))]
  }

  /** An organization needs `openalex_id` and `name`; `lineage_ids` defaults to `[]`. */
  lemma ParseOrganizationDefaults(o: Object)
    ensures ParseOrganization(o).Some? ==>
      var g := ParseOrganization(o).value;
      o["openalex_id"] == JStr(g.openalexId) && o["name"] == JStr(g.name)
      && ("lineage_ids" !in o ==> g.lineageIds == [])
      && ("country_code" !in o ==> g.countryCode == None)
      && ("type" !in o ==> g.kind == None)
      && ("ror" !in o ==> g.ror == None)
    ensures ("openalex_id" !in o || "name" !in o) ==> ParseOrganization(o) == None
  {
  }

  lemma OrganizationRoundTrip(g: Organization)
    ensures ParseOrganization(OrganizationObject(g)) == Some(g)
  {
    assert AllStrings(StrArr(g.lineageIds));
    assert Strings(StrArr(g.lineageIds)) == g.lineageIds;
  }

  // ---------------------------------------------------------------- the mapping

  /** `map_institution_to_organization`. */
  function MapInstitutionToOrganization(i: OpenAlexInstitution): Organization {
    Organization(i.id, i.displayName, i.countryCode, i.kind, i.ror, i.lineage)
  }

  /** The institution an organization came from. */
  function OrganizationSource(g: Organization): OpenAlexInstitution {
    OpenAlexInstitution(g.openalexId, g.name, g.ror, g.countryCode, g.kind, g.lineageIds)
  }

  /**
   * The mapping renames `id`, `display_name` and `lineage` and passes the
   * country code, type and ROR id through: it loses nothing, and every
   * organization is the image of exactly one institution.
   */
  lemma MappingIsBijective(i: OpenAlexInstitution, g: Organization)
    ensures OrganizationSource(MapInstitutionToOrganization(i)) == i
    ensures MapInstitutionToOrganization(OrganizationSource(g)) == g
    ensures MapInstitutionToOrganization(i) == g <==> i == OrganizationSource(g)
  {
  }

  /** The mapped node of a validated institution validates as an organization with the same fields. */
  lemma MappedInstitutionValidates(o: Object)
    requires ParseInstitution(o).Some?
    ensures var i := ParseInstitution(o).value;
      var g := MapInstitutionToOrganization(i);
      ParseOrganization(OrganizationObject(g)) == Some(g)
      && g.openalexId == i.id && g.name == i.displayName && g.lineageIds == i.lineage
      && g.countryCode == i.countryCode && g.kind == i.kind && g.ror == i.ror
      && ("lineage" !in o ==> g.lineageIds == [])
  {
    OrganizationRoundTrip(MapInstitutionToOrganization(ParseInstitution(o).value));
  }

  // ---------------------------------------------------------------- DOIMatch

  /** `DOIMatch`: confidence is a float, here a real. */
  datatype DoiMatch = DoiMatch(arxivId: string, openalexId: string, doi: string, confidence: real)

  /** The confidence of an exact DOI match. */
  const ExactConfidence: real := 1.0

  function ParseDoiMatch(o: Object): Option<DoiMatch> {
    var arxivId := ReqStr(o, "arxiv_id");
    var openalexId := ReqStr(o, "openalex_id");
    var doi := ReqStr(o, "doi");
    var confidence := RealOr(o, "confidence", ExactConfidence);
    if arxivId.Some? && openalexId.Some? && doi.Some? && confidence.Some?
    then Some(DoiMatch(arxivId.value, openalexId.value, doi.value, confidence.value))
    else None
  }

  function DoiMatchObject(m: DoiMatch): Object {
    map["arxiv_id" := JStr(m.arxivId), "openalex_id" := JStr(m.openalexId), "doi" := JStr(m.doi),
        "confidence" := JReal(m.confidence)]
  }

  /** A match without a confidence has confidence 1.0; the three ids are required. */
  lemma ParseDoiMatchDefaults(a: string, w: string, d: string)
    ensures ParseDoiMatch(map["arxiv_id" := JStr(a), "openalex_id" := JStr(w), "doi" := JStr(d)])
         == Some(DoiMatch(a, w, d, 1.0))
    ensures ParseDoiMatch(map["arxiv_id" := JStr(a), "openalex_id" := JStr(w)]) == None
  {
  }

  lemma DoiMatchRoundTrip(m: DoiMatch)
    ensures ParseDoiMatch(DoiMatchObject(m)) == Some(m)
  {
  }
}
