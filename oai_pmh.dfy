/**
 * The client side of an OAI-PMH 2.0 ListRecords harvest against arXiv:
 * request arguments for a first request and for a continuation (section 4.5
 * and the resumption tokens of section 3.5 of the OAI-PMH 2.0 protocol),
 * detection of the `error` element, parsing of one `record` into a field
 * dictionary (a deleted header, section 2.5.1, or Dublin Core metadata), and
 * the incremental harvest loop with its throttle and its unbounded retry.
 *
 * The XML has already been read: a response is a `Document` listing the
 * elements the client looks up. The server's answers are given as
 * `replies`, one per request the harvest makes.
 */
module OaiPmh {
  import opened Common
  import opened Dates

  // ---------------------------------------------------------------- XML input

  /** A child of `oai_dc:dc`: its tag as ElementTree reports it (namespace in braces) and its text. */
  datatype Element = Element(tag: string, text: Text)

  /**
   * `oai:header`: its `status` attribute, its `identifier` and `datestamp`
   * children (`None` when the child is missing, `Some(None)` when it has no
   * text) and the texts of its `setSpec` children in document order.
   */
  datatype Header = Header(
    status: Option<string>, identifier: Option<Text>, datestamp: Option<Text>, setSpecs: seq<Text>)

  /** `oai:metadata`; `dc` lists the children of its `oai_dc:dc` child, `None` for another format. */
  datatype Metadata = Metadata(dc: Option<seq<Element>>)

  /** `oai:record` with its optional `header` and `metadata` children. */
  datatype RecordElem = RecordElem(header: Option<Header>, metadata: Option<Metadata>)

  /** `oai:error` with its optional `code` attribute and its text. */
  datatype ErrorElem = ErrorElem(code: Option<string>, text: Text)

  /**
   * A well-formed response: its `oai:error` and `oai:record` elements in
   * document order, and the first `oai:resumptionToken` element's text
   * (`None` when there is no such element).
   */
  datatype Document = Document(errors: seq<ErrorElem>, records: seq<RecordElem>, resumptionToken: Option<Text>)

  /** What one HTTP request produced: a transport error (or an HTTP error status), a body that is not XML, or a document. */
  datatype Reply = TransportFailure | MalformedXml | Xml(doc: Document)

  /** The exception `_make_request` raises. */
  datatype RequestError = RequestFailed | ParseFailed | OaiError(code: string, message: string)

  /** A parsed record: the dictionary `_parse_record` returns. */
  type OaiRecord = map<string, Value>

  function Get(rec: OaiRecord, key: string): Option<Value> {
    if key in rec then Some(rec[key]) else None
  }

  // ---------------------------------------------------------------- requests

  const ListRecordsVerb := "ListRecords"

  /** The query arguments of the OAI-PMH protocol the harvester sends. */
  datatype Arg = Verb | MetadataPrefix | From | Until | SetArg | ResumptionToken

  /** The name of an argument in the query string. */
  function ArgName(a: Arg): (n: string)
    ensures n != []
  {
    match a
    case Verb => "verb"
    case MetadataPrefix => "metadataPrefix"
    case From => "from"
    case Until => "until"
    case SetArg => "set"
    case ResumptionToken => "resumptionToken"
  }

  /** Distinct arguments have distinct names, so a map keyed by `Arg` is the query dictionary. */
  lemma ArgNameInjective(a: Arg, b: Arg)
    requires a != b
    ensures ArgName(a) != ArgName(b)
  {
    var x, y := ArgName(a), ArgName(b);
    assert |x| != |y| || x[0] != y[0];
  }

  type Params = map<Arg, string>

  /** The value sent for an argument, `None` when the argument is absent. */
  function Sent(p: Params, k: Arg): Option<string> {
    if k in p then Some(p[k]) else None
  }

  /** `d.strftime('%Y-%m-%d')` of an optional timestamp. */
  function DayOf(t: Option<DateTime>): (r: Option<string>)
    requires t.Some? ==> ValidDateTime(t.value)
    ensures r.Some? <==> t.Some?
    ensures r.Some? ==> r.value == FormatYmd(t.value.date)
  {
    if t.Some? then Some(FormatYmd(t.value.date)) else None
  }

  /** The value `list_records` puts under argument `k`, argument by argument. */
  function ArgValue(prefix: string, from: Option<DateTime>, until: Option<DateTime>,
                    setSpec: Text, token: Text, k: Arg): Option<string>
    requires from.Some? ==> ValidDateTime(from.value)
    requires until.Some? ==> ValidDateTime(until.value)
  {
    match k
    case Verb => Some(ListRecordsVerb)
    case ResumptionToken => if Truthy(token) then token else None
    case MetadataPrefix => if Truthy(token) then None else Some(prefix)
    case From => if Truthy(token) then None else DayOf(from)
    case Until => if Truthy(token) then None else DayOf(until)
    case SetArg => if Truthy(token) || !Truthy(setSpec) then None else setSpec
  }

  /**
   * The query arguments of a ListRecords request. A truthy resumption token
   * makes a continuation request, which carries the verb and the token and
   * nothing else; otherwise a first request carries the metadata prefix and
   * each selective-harvesting argument that was supplied.
   */
  function ListRecordsParams(prefix: string, from: Option<DateTime>, until: Option<DateTime>,
                             setSpec: Text, token: Text): Params
    requires from.Some? ==> ValidDateTime(from.value)
    requires until.Some? ==> ValidDateTime(until.value)
  {
    map k | k in {Verb, MetadataPrefix, From, Until, SetArg, ResumptionToken}
              && ArgValue(prefix, from, until, setSpec, token, k).Some?
      :: ArgValue(prefix, from, until, setSpec, token, k).value
  }

  /** The arguments of a continuation request and of a first request. */
  lemma ListRecordsArgs(prefix: string, from: Option<DateTime>, until: Option<DateTime>,
                        setSpec: Text, token: Text)
    requires from.Some? ==> ValidDateTime(from.value)
    requires until.Some? ==> ValidDateTime(until.value)
    ensures var p := ListRecordsParams(prefix, from, until, setSpec, token);
      Sent(p, Verb) == Some(ListRecordsVerb)
      && (Truthy(token) ==>
            Sent(p, ResumptionToken) == token && Sent(p, MetadataPrefix) == None
            && Sent(p, From) == None && Sent(p, Until) == None && Sent(p, SetArg) == None)
      && (!Truthy(token) ==>
            Sent(p, ResumptionToken) == None && Sent(p, MetadataPrefix) == Some(prefix)
            && (From in p <==> from.Some?) && (from.Some? ==> p[From] == FormatYmd(from.value.date))
            && (Until in p <==> until.Some?) && (until.Some? ==> p[Until] == FormatYmd(until.value.date))
            && (SetArg in p <==> Truthy(setSpec)) && (Truthy(setSpec) ==> p[SetArg] == setSpec.value))
  {
  }

  /** The exception an `oai:error` element turns into: code `unknown` and text `No error message` by default. */
  function ErrorOf(e: ErrorElem): (r: RequestError)
    ensures r.OaiError?
    ensures e.code.Some? ==> r.code == e.code.value
    ensures e.code.None? ==> r.code == "unknown"
    ensures Truthy(e.text) ==> r.message == e.text.value
    ensures !Truthy(e.text) ==> r.message == "No error message"
  {
    OaiError(if e.code.Some? then e.code.value else "unknown",
             if Truthy(e.text) then e.text.value else "No error message")
  }

  /** `_make_request`: the document, unless the request failed or the document holds an error element anywhere. */
  function MakeRequest(reply: Reply): (r: Result<Document, RequestError>)
    ensures r.Ok? <==> reply.Xml? && reply.doc.errors == []
    ensures r.Ok? ==> r.value == reply.doc
    ensures reply.Xml? && reply.doc.errors != [] ==> r == Err(ErrorOf(reply.doc.errors[0]))
    ensures reply.TransportFailure? ==> r == Err(RequestFailed)
    ensures reply.MalformedXml? ==> r == Err(ParseFailed)
  {
    match reply
    case TransportFailure => Err(RequestFailed)
    case MalformedXml => Err(ParseFailed)
    case Xml(doc) => if doc.errors != [] then Err(ErrorOf(doc.errors[0])) else Ok(doc)
  }

  // ---------------------------------------------------------------- records

  const DcNamespace := "{http://purl.org/dc/elements/1.1/}"

  /** `child.tag.replace('{http://purl.org/dc/elements/1.1/}', '')`. */
  function DcTag(tag: string): string {
    RemoveAll(tag, DcNamespace)
  }

  /** `identifier.split(':')[-1]` when the identifier contains a colon. */
  function ArxivIdOf(identifier: string): (r: Option<string>)
    ensures r.None? <==> ':' !in identifier
    ensures r.Some? ==> ':' !in r.value && exists p :: identifier == p + [':'] + r.value
  {
    if Contains(identifier, ':') then Some(LastPiece(identifier, ':')) else None
  }

  /** One Dublin Core element folded into the record: a first occurrence is a scalar, a second makes a list, later ones append. */
  function AddElement(rec: OaiRecord, c: Element): OaiRecord {
    var tag := DcTag(c.tag);
    rec[tag := Appended(Get(rec, tag), c.text)]
  }

  /** A field after one more text: the text alone, a pair with the old scalar, or the list extended. */
  function Appended(prev: Option<Value>, x: Text): Value {
    match prev
    case None => Scalar(x)
    case Some(Scalar(t)) => Many([t, x])
    case Some(Many(ts)) => Many(ts + [x])
  }

  /** The record after folding the first `n` Dublin Core elements, in document order. */
  function FoldElements(rec: OaiRecord, children: seq<Element>, n: nat): OaiRecord
    requires n <= |children|
  {
    if n == 0 then rec else AddElement(FoldElements(rec, children, n - 1), children[n - 1])
  }

  /** The fields set before the Dublin Core elements: identifier, datestamp, status and the arXiv id. */
  function DcBase(identifier: string, datestamp: Text): (r: OaiRecord)
    ensures r.Keys == {"identifier", "datestamp", "status"} + (if ':' in identifier then {"arxiv_id"} else {})
  {
    var base := map["identifier" := Scalar(Some(identifier)), "datestamp" := Scalar(datestamp),
                    "status" := Scalar(Some("active"))];
    match ArxivIdOf(identifier)
    case Some(id) => base["arxiv_id" := Scalar(Some(id))]
    case None => base
  }

  /**
   * `_parse_dublin_core`, or `None` where it raises (a missing identifier
   * or datestamp child, an identifier without text) and `_parse_record`
   * swallows the exception.
   */
  function DublinCoreRecord(h: Header, children: seq<Element>): Option<OaiRecord> {
    if h.identifier.None? || h.datestamp.None? || h.identifier.value.None? then None
    else
      var rec := FoldElements(DcBase(h.identifier.value.value, h.datestamp.value), children, |children|);
      Some(rec["sets" := Many(h.setSpecs)])
  }

  /** `_parse_dublin_core` as the loop over the `oai_dc:dc` children. */
  method ParseDublinCore(h: Header, children: seq<Element>) returns (r: Option<OaiRecord>)
    ensures r == DublinCoreRecord(h, children)
  {
    if h.identifier.None? || h.datestamp.None? || h.identifier.value.None? {
      return None;
    }
    var rec := DcBase(h.identifier.value.value, h.datestamp.value);
    ghost var base := rec;
    var i := 0;
    while i < |children|
      invariant 0 <= i <= |children|
      invariant rec == FoldElements(base, children, i)
    {
      rec := AddElement(rec, children[i]);
      i := i + 1;
    }
    return Some(rec["sets" := Many(h.setSpecs)]);
  }

  /** The deleted-record dictionary: identifier, datestamp and status, nothing else. */
  function DeletedRecord(h: Header): Option<OaiRecord> {
    if h.identifier.None? || h.datestamp.None? then None
    else Some(map["identifier" := Scalar(h.identifier.value), "datestamp" := Scalar(h.datestamp.value),
                  "status" := Scalar(Some("deleted"))])
  }

  /**
   * `_parse_record` as written: no record without a header, a deleted
   * header's three fields, no record without metadata or without
   * `oai_dc:dc`, otherwise the Dublin Core record.
   */
  function ParseRecordAsWritten(e: RecordElem): Option<OaiRecord> {
    match e.header
    case None => None
    case Some(h) =>
      if h.status == Some("deleted") then DeletedRecord(h)
      else match e.metadata
        case None => None
        case Some(m) => match m.dc
          case None => None
          case Some(children) => DublinCoreRecord(h, children)
  }

  /**
   * `_parse_record` with the arXiv id also taken from a deleted header's
   * identifier, as the Dublin Core branch takes it, so that the updater
   * can find the paper to delete.
   */
  function ParseRecord(e: RecordElem): Option<OaiRecord> {
    match ParseRecordAsWritten(e)
    case Some(rec) =>
      if IsDeletedHeader(e) && e.header.value.identifier.value.Some? then
        match ArxivIdOf(e.header.value.identifier.value.value)
        case Some(id) => Some(rec["arxiv_id" := Scalar(Some(id))])
        case None => Some(rec)
      else Some(rec)
    case None => None
  }

  predicate IsDeletedHeader(e: RecordElem) {
    e.header.Some? && e.header.value.status == Some("deleted")
  }

  // ---------------------------------------------------------------- pages

  /** One page of a ListRecords harvest: the parsed records and the next resumption token. */
  datatype Page = Page(records: seq<OaiRecord>, token: Text)

  /** The records of a page: each record element parsed and the unparseable ones dropped, in order. */
  method ParseRecords(elems: seq<RecordElem>) returns (records: seq<OaiRecord>)
    ensures records == FilterMap(elems, ParseRecordAsWritten, |elems|)
  {
    records := [];
    for i := 0 to |elems|
      invariant records == FilterMap(elems, ParseRecordAsWritten, i)
    {
      var rec := ParseRecordAsWritten(elems[i]);
      if rec.Some? {
        records := records + [rec.value];
      }
    }
  }

  /** `list_records` after the request: the page, or the exception of `_make_request`. */
  function ListRecordsResponse(reply: Reply): Result<Page, RequestError> {
    match MakeRequest(reply)
    case Err(e) => Err(e)
    case Ok(doc) =>
      var token := if doc.resumptionToken.Some? then doc.resumptionToken.value else None;
      Ok(Page(FilterMap(doc.records, ParseRecordAsWritten, |doc.records|), token))
  }

  /** `list_records`: the request arguments it sends and the page it returns or the exception it raises. */
  method ListRecords(prefix: string, from: Option<DateTime>, until: Option<DateTime>, setSpec: Text,
                     token: Text, reply: Reply)
    returns (params: Params, r: Result<Page, RequestError>)
    requires from.Some? ==> ValidDateTime(from.value)
    requires until.Some? ==> ValidDateTime(until.value)
    ensures params == ListRecordsParams(prefix, from, until, setSpec, token)
    ensures r == ListRecordsResponse(reply)
  {
    params := ListRecordsParams(prefix, from, until, setSpec, token);
    var resp := MakeRequest(reply);
    if resp.Err? {
      return params, Err(resp.error);
    }
    var doc := resp.value;
    var records := ParseRecords(doc.records);
    var next := if doc.resumptionToken.Some? then doc.resumptionToken.value else None;
    return params, Ok(Page(records, next));
  }

  // ---------------------------------------------------------------- harvest

  /**
   * One request of the harvest: the count of earlier successful requests and
   * the resumption token held before it, whether the one-second pause
   * preceded it, the arguments sent and the outcome.
   */
  datatype Attempt = Attempt(
    countBefore: nat, tokenBefore: Text, paused: bool, params: Params,
    result: Result<Page, RequestError>)

  /** A successful page that ends the harvest: no records, or no further token. */
  predicate EndsHarvest(r: Result<Page, RequestError>) {
    r.Ok? && (r.value.records == [] || !Truthy(r.value.token))
  }

  /** The state after an attempt: the count grows only on success, and only a success replaces the token. */
  function CountAfter(a: Attempt): nat {
    if a.result.Ok? then a.countBefore + 1 else a.countBefore
  }

  function TokenAfter(a: Attempt): Text {
    if a.result.Ok? then a.result.value.token else a.tokenBefore
  }

  /**
   * `attempts` is what `harvest_incremental` does with `replies`: it starts
   * with no count and no token; before each request it pauses exactly when
   * the count is a positive multiple of four; it always asks for `oai_dc`
   * from the last update's day; the reply decides the outcome; a failure
   * keeps the count and the token for the retry; only the final attempt may
   * end the harvest.
   */
  predicate IsHarvest(lastUpdate: DateTime, replies: seq<Reply>, attempts: seq<Attempt>)
    requires ValidDateTime(lastUpdate)
  {
    |attempts| <= |replies|
    && (|attempts| > 0 ==> attempts[0].countBefore == 0 && attempts[0].tokenBefore == None)
    && Chained(attempts)
    && (forall i :: 0 <= i < |attempts| ==> AttemptOf(lastUpdate, replies[i], attempts[i]))
  }

  /** Each attempt starts from the count and token the previous one left, and only the last may end the harvest. */
  predicate Chained(attempts: seq<Attempt>) {
    forall i :: 0 <= i < |attempts| - 1 ==>
      attempts[i + 1].countBefore == CountAfter(attempts[i])
      && attempts[i + 1].tokenBefore == TokenAfter(attempts[i])
      && !EndsHarvest(attempts[i].result)
  }

  lemma ChainedSnoc(attempts: seq<Attempt>, a: Attempt)
    requires Chained(attempts)
    requires |attempts| > 0 ==>
               a.countBefore == CountAfter(attempts[|attempts| - 1])
               && a.tokenBefore == TokenAfter(attempts[|attempts| - 1])
               && !EndsHarvest(attempts[|attempts| - 1].result)
    ensures Chained(attempts + [a])
  {
    var b := attempts + [a];
    forall i | 0 <= i < |b| - 1
      ensures b[i + 1].countBefore == CountAfter(b[i]) && b[i + 1].tokenBefore == TokenAfter(b[i])
        && !EndsHarvest(b[i].result)
    {
      assert b[i] == attempts[i];
    }
  }

  /** One request of the harvest: its pause, its arguments and what became of `reply`. */
  predicate AttemptOf(lastUpdate: DateTime, reply: Reply, a: Attempt)
    requires ValidDateTime(lastUpdate)
  {
    a.paused == (a.countBefore > 0 && a.countBefore % 4 == 0)
    && a.params == ListRecordsParams("oai_dc", Some(lastUpdate), None, None, a.tokenBefore)
    && a.result == ListRecordsResponse(reply)
  }

  /** A harvest that has not ended grows by one attempt that picks up where the last one left off. */
  lemma IsHarvestSnoc(lastUpdate: DateTime, replies: seq<Reply>, attempts: seq<Attempt>, a: Attempt)
    requires ValidDateTime(lastUpdate)
    requires IsHarvest(lastUpdate, replies, attempts) && |attempts| < |replies|
    requires AttemptOf(lastUpdate, replies[|attempts|], a)
    requires |attempts| == 0 ==> a.countBefore == 0 && a.tokenBefore == None
    requires |attempts| > 0 ==>
               a.countBefore == CountAfter(attempts[|attempts| - 1])
               && a.tokenBefore == TokenAfter(attempts[|attempts| - 1])
               && !EndsHarvest(attempts[|attempts| - 1].result)
    ensures IsHarvest(lastUpdate, replies, attempts + [a])
  {
    ChainedSnoc(attempts, a);
    var b := attempts + [a];
    forall i | 0 <= i < |b| ensures AttemptOf(lastUpdate, replies[i], b[i]) {
      if i < |attempts| { assert b[i] == attempts[i]; }
    }
  }

  /** The pages yielded by the first `n` attempts: the record lists of successful non-empty pages, in order. */
  function Yielded(attempts: seq<Attempt>, n: nat): seq<seq<OaiRecord>>
    requires n <= |attempts|
  {
    if n == 0 then []
    else
      var prev := Yielded(attempts, n - 1);
      var r := attempts[n - 1].result;
      if r.Ok? && r.value.records != [] then prev + [r.value.records] else prev
  }

  lemma {:induction false} YieldedAppend(attempts: seq<Attempt>, a: Attempt, n: nat)
    requires n <= |attempts|
    ensures Yielded(attempts + [a], n) == Yielded(attempts, n)
    decreases n
  {
    if n > 0 {
      YieldedAppend(attempts, a, n - 1);
      assert (attempts + [a])[n - 1] == attempts[n - 1];
    }
  }

  /**
   * `harvest_incremental(last_update)` run against `replies`. `completed`
   * is whether the loop ended by itself; when it is false every reply was
   * used and the loop would go on retrying.
   */
  method HarvestIncremental(lastUpdate: DateTime, replies: seq<Reply>)
    returns (pages: seq<seq<OaiRecord>>, ghost attempts: seq<Attempt>, completed: bool)
    requires ValidDateTime(lastUpdate)
    ensures IsHarvest(lastUpdate, replies, attempts)
    ensures completed <==> |attempts| > 0 && EndsHarvest(attempts[|attempts| - 1].result)
    ensures !completed ==> |attempts| == |replies|
    ensures pages == Yielded(attempts, |attempts|)
  {
    var requestCount: nat := 0;
    var token: Text := None;
    pages := [];
    attempts := [];
    completed := false;
    var i := 0;
    while i < |replies| && !completed
      invariant 0 <= i <= |replies| && |attempts| == i
      invariant IsHarvest(lastUpdate, replies, attempts)
      invariant i == 0 ==> requestCount == 0 && token == None
      invariant i > 0 ==> requestCount == CountAfter(attempts[i - 1]) && token == TokenAfter(attempts[i - 1])
      invariant completed <==> i > 0 && EndsHarvest(attempts[i - 1].result)
      invariant pages == Yielded(attempts, i)
    {
      // arXiv's fair-use policy: a one-second sleep after every burst of four requests
      var paused := requestCount > 0 && requestCount % 4 == 0;
      var params, result := ListRecords("oai_dc", Some(lastUpdate), None, None, token, replies[i]);
      ghost var a := Attempt(requestCount, token, paused, params, result);
      IsHarvestSnoc(lastUpdate, replies, attempts, a);
      YieldedAppend(attempts, a, i);
      attempts := attempts + [a];
      if result.Ok? {
        requestCount := requestCount + 1;
        token := result.value.token;
        if result.value.records == [] {
          completed := true;
        } else {
          pages := pages + [result.value.records];
          if !Truthy(result.value.token) {
            completed := true;
          }
        }
      }
      // on an exception: sleep sixty seconds and retry with the same token
      assert attempts[i] == a;
      assert requestCount == CountAfter(a) && token == TokenAfter(a) && (completed <==> EndsHarvest(result));
      assert pages == Yielded(attempts, i + 1);
      i := i + 1;
    }
  }

  // ---------------------------------------------------------------- properties

  /** A continuation request carries exactly the verb and the token; a first request never carries a token. */
  lemma ContinuationParams(prefix: string, from: Option<DateTime>, token: Text)
    requires from.Some? ==> ValidDateTime(from.value)
    ensures var p := ListRecordsParams(prefix, from, None, None, token);
      (Truthy(token) ==> p == map[Verb := ListRecordsVerb, ResumptionToken := token.value])
      && (!Truthy(token) ==> ResumptionToken !in p && Until !in p && SetArg !in p)
  {
    var p := ListRecordsParams(prefix, from, None, None, token);
    ListRecordsArgs(prefix, from, None, None, token);
    if Truthy(token) {
      var m := map[Verb := ListRecordsVerb, ResumptionToken := token.value];
      forall k ensures Sent(p, k) == Sent(m, k) {
        match k
        case Verb =>
        case ResumptionToken =>
        case MetadataPrefix =>
        case From =>
        case Until =>
        case SetArg =>
      }
      assert p.Keys == m.Keys by { assert forall k :: Sent(p, k).Some? <==> Sent(m, k).Some?; }
    }
  }

  /** A response with an error element yields no page at all. */
  lemma ErrorDocumentHasNoPage(doc: Document)
    requires doc.errors != []
    ensures ListRecordsResponse(Xml(doc)) == Err(ErrorOf(doc.errors[0]))
  {
  }

  /** Every retry repeats the failed request's token and count, so it sends the same arguments. */
  lemma RetryRepeatsRequest(lastUpdate: DateTime, replies: seq<Reply>, attempts: seq<Attempt>, i: nat)
    requires ValidDateTime(lastUpdate) && IsHarvest(lastUpdate, replies, attempts)
    requires i + 1 < |attempts| && attempts[i].result.Err?
    ensures attempts[i + 1].tokenBefore == attempts[i].tokenBefore
    ensures attempts[i + 1].countBefore == attempts[i].countBefore
    ensures attempts[i + 1].params == attempts[i].params
    ensures attempts[i + 1].paused == attempts[i].paused
  {
    assert attempts[i + 1].countBefore == CountAfter(attempts[i]);
  }

  /** The count before an attempt is the number of earlier successful requests. */
  function Successes(attempts: seq<Attempt>, n: nat): nat
    requires n <= |attempts|
  {
    if n == 0 then 0 else Successes(attempts, n - 1) + (if attempts[n - 1].result.Ok? then 1 else 0)
  }

  lemma {:induction false} CountIsSuccesses(lastUpdate: DateTime, replies: seq<Reply>, attempts: seq<Attempt>, i: nat)
    requires ValidDateTime(lastUpdate) && IsHarvest(lastUpdate, replies, attempts) && i < |attempts|
    ensures attempts[i].countBefore == Successes(attempts, i)
    ensures attempts[i].paused <==> Successes(attempts, i) > 0 && Successes(attempts, i) % 4 == 0
    decreases i
  {
    if i > 0 {
      CountIsSuccesses(lastUpdate, replies, attempts, i - 1);
      assert attempts[i].countBefore == CountAfter(attempts[i - 1]);
    }
  }

  /** Every yielded page is non-empty and comes from one successful attempt. */
  lemma {:induction false} YieldedPagesNonEmpty(attempts: seq<Attempt>, n: nat, k: nat)
    requires n <= |attempts| && k < |Yielded(attempts, n)|
    ensures Yielded(attempts, n)[k] != []
    ensures exists i :: 0 <= i < n && attempts[i].result.Ok? && attempts[i].result.value.records == Yielded(attempts, n)[k]
    decreases n
  {
    var prev := Yielded(attempts, n - 1);
    if k < |prev| {
      YieldedPagesNonEmpty(attempts, n - 1, k);
      assert Yielded(attempts, n)[k] == prev[k];
    }
  }

  /**
   * A harvest in which every reply is an error (arXiv answers an empty
   * incremental window with the `noRecordsMatch` error) yields nothing and
   * never ends: it retries on every reply it is given.
   */
  lemma ErrorsNeverEnd(lastUpdate: DateTime, replies: seq<Reply>, attempts: seq<Attempt>)
    requires ValidDateTime(lastUpdate) && IsHarvest(lastUpdate, replies, attempts)
    requires forall i :: 0 <= i < |replies| ==> replies[i].Xml? && replies[i].doc.errors != []
    ensures forall i :: 0 <= i < |attempts| ==> !EndsHarvest(attempts[i].result)
    ensures forall i :: 0 <= i < |attempts| ==> attempts[i].countBefore == 0 && attempts[i].tokenBefore == None
    ensures Yielded(attempts, |attempts|) == []
  {
    forall i | 0 <= i < |attempts| ensures attempts[i].result.Err? {
      ErrorDocumentHasNoPage(replies[i].doc);
    }
    forall i | 0 <= i < |attempts| ensures attempts[i].countBefore == 0 && attempts[i].tokenBefore == None {
      ErrorsKeepStart(lastUpdate, replies, attempts, i);
    }
    YieldedNoneOnErrors(attempts, |attempts|);
  }

  lemma {:induction false} ErrorsKeepStart(lastUpdate: DateTime, replies: seq<Reply>, attempts: seq<Attempt>, i: nat)
    requires ValidDateTime(lastUpdate) && IsHarvest(lastUpdate, replies, attempts) && i < |attempts|
    requires forall j :: 0 <= j < i ==> attempts[j].result.Err?
    ensures attempts[i].countBefore == 0 && attempts[i].tokenBefore == None
    decreases i
  {
    if i > 0 {
      ErrorsKeepStart(lastUpdate, replies, attempts, i - 1);
      assert attempts[i].countBefore == CountAfter(attempts[i - 1]);
    }
  }

  lemma {:induction false} YieldedNoneOnErrors(attempts: seq<Attempt>, n: nat)
    requires n <= |attempts| && forall i :: 0 <= i < n ==> attempts[i].result.Err?
    ensures Yielded(attempts, n) == []
    decreases n
  {
    if n > 0 {
      YieldedNoneOnErrors(attempts, n - 1);
    }
  }

  // ---------------------------------------------------------------- record parsing properties

  /** The texts of the first `n` elements whose cleaned tag is `tag`, in document order. */
  function TagTexts(children: seq<Element>, tag: string, n: nat): seq<Text>
    requires n <= |children|
  {
    if n == 0 then []
    else TagTexts(children, tag, n - 1) + (if DcTag(children[n - 1].tag) == tag then [children[n - 1].text] else [])
  }

  /** The closed form of folding texts into a field that held `prev`. */
  function Folded(prev: Option<Value>, ts: seq<Text>): Option<Value> {
    if ts == [] then prev
    else match prev
      case None => if |ts| == 1 then Some(Scalar(ts[0])) else Some(Many(ts))
      case Some(Scalar(t)) => Some(Many([t] + ts))
      case Some(Many(xs)) => Some(Many(xs + ts))
  }

  /** The closed form grows by one text as `Appended` says. */
  lemma FoldedSnoc(prev: Option<Value>, ts: seq<Text>, x: Text)
    ensures Folded(prev, ts + [x]) == Some(Appended(Folded(prev, ts), x))
  {
    if ts == [] {
      assert [] + [x] == [x];
      match prev
      case None =>
      case Some(Scalar(t)) => assert [t] + [x] == [t, x];
      case Some(Many(xs)) =>
    } else {
      match prev
      case None => if |ts| == 1 { assert ts + [x] == [ts[0], x]; }
      case Some(Scalar(t)) => assert [t] + ts + [x] == [t] + (ts + [x]);
      case Some(Many(xs)) => assert xs + ts + [x] == xs + (ts + [x]);
    }
  }

  /** Folding the elements leaves each field in its closed form; fields they do not name are untouched. */
  lemma {:induction false} FoldElementsField(rec: OaiRecord, children: seq<Element>, n: nat, tag: string)
    requires n <= |children|
    ensures Get(FoldElements(rec, children, n), tag) == Folded(Get(rec, tag), TagTexts(children, tag, n))
    decreases n
  {
    if n > 0 {
      FoldElementsField(rec, children, n - 1, tag);
      var c := children[n - 1];
      if DcTag(c.tag) == tag {
        FoldedSnoc(Get(rec, tag), TagTexts(children, tag, n - 1), c.text);
      } else {
        assert TagTexts(children, tag, n) == TagTexts(children, tag, n - 1);
      }
    }
  }

  /** A Dublin Core tag seen once is a scalar, seen twice or more a list of its texts in order. */
  lemma DublinCoreField(h: Header, children: seq<Element>, tag: string)
    requires DublinCoreRecord(h, children).Some?
    requires tag !in {"identifier", "datestamp", "status", "arxiv_id", "sets"}
    ensures var rec := DublinCoreRecord(h, children).value;
      var ts := TagTexts(children, tag, |children|);
      (tag in rec <==> ts != [])
      && (|ts| == 1 ==> rec[tag] == Scalar(ts[0]))
      && (|ts| >= 2 ==> rec[tag] == Many(ts))
  {
    var base := DcBase(h.identifier.value.value, h.datestamp.value);
    FoldElementsField(base, children, |children|, tag);
  }

  /** An active record names its arXiv id exactly when the identifier has a colon, and its sets are the set specs in order. */
  lemma DublinCoreKeys(h: Header, children: seq<Element>)
    requires DublinCoreRecord(h, children).Some?
    ensures var rec := DublinCoreRecord(h, children).value;
      var id := h.identifier.value.value;
      rec["sets"] == Many(h.setSpecs)
      && (TagTexts(children, "arxiv_id", |children|) == [] ==>
            ("arxiv_id" in rec <==> ':' in id)
            && (':' in id ==> rec["arxiv_id"] == Scalar(Some(LastPiece(id, ':')))))
  {
    var base := DcBase(h.identifier.value.value, h.datestamp.value);
    FoldElementsField(base, children, |children|, "arxiv_id");
  }

  /** A deleted header gives exactly identifier, datestamp and status; its metadata is never read. */
  lemma DeletedRecordShape(e: RecordElem)
    requires IsDeletedHeader(e) && e.header.value.identifier.Some? && e.header.value.datestamp.Some?
    ensures ParseRecordAsWritten(e) == Some(map[
      "identifier" := Scalar(e.header.value.identifier.value),
      "datestamp" := Scalar(e.header.value.datestamp.value),
      "status" := Scalar(Some("deleted"))])
    ensures ParseRecordAsWritten(e) == ParseRecordAsWritten(e.(metadata := None))
  {
  }

  /** Without a header, metadata or `oai_dc:dc`, a record element parses to nothing. */
  lemma NoRecordCases(e: RecordElem)
    ensures e.header.None? ==> ParseRecordAsWritten(e).None?
    ensures !IsDeletedHeader(e) && (e.metadata.None? || e.metadata.value.dc.None?) ==> ParseRecordAsWritten(e).None?
  {
  }
}
