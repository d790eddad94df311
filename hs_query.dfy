/** ElasticSearchHSQueryImpl: the read path. A query is sent as one search
    request over the first targeted entity's index, with the names of all
    targeted entities as document types, the translated Lucene query, one
    sort clause per sort field on its raw sub-field and the page size; the
    hits of the response are decoded back into entity infos. */
module HsQuery {
  import opened Wrappers
  import opened JavaModel
  import opened EsClient
  import QueryBuilder
  import SearchUtils
  import IndexManager

  /** The default page size. */
  const MAX_RESULTS: int32 := 200

  /** A Lucene sort field: the field name and whether the order is reversed. */
  datatype SortField = SortField(field: string, reverse: bool)

  /** A search hit: its document type and its id. */
  datatype Hit = Hit(docType: string, id: string)

  /** The engine's answer to a search request. */
  datatype SearchResponse = SearchResponse(shardFailures: seq<string>, hits: seq<Hit>)

  /** A decoded entity id: a String or a Long. */
  datatype Id = StringId(text: string) | LongId(value: int)

  /** An entity info: the hit's class, the name of its id field and the id. */
  datatype EntityInfo = EntityInfo(entityType: ClassRef, idName: string, id: Id)

  // ---- Long.parseLong and Long.toString, on ASCII decimal strings ----

  predicate IsDigit(c: char) {
    '0' <= c <= '9'
  }

  predicate AllDigits(s: string) {
    forall i :: 0 <= i < |s| ==> IsDigit(s[i])
  }

  /** The value of a string of decimal digits. */
  function DigitsValue(ds: string): nat
    requires AllDigits(ds)
  {
    if |ds| == 0 then 0
    else DigitsValue(ds[..|ds| - 1]) * 10 + (ds[|ds| - 1] as int - '0' as int)
  }

  /** Long.parseLong: an optional sign and at least one digit, whose value
      fits a `long`; anything else is a NumberFormatException. */
  function ParseLong(s: string): (r: Result<int, Error>)
    ensures r.Ok? ==> LONG_MIN <= r.value <= LONG_MAX
    ensures r.Err? ==> r.error == NumberFormat(s)
  {
    var signed := |s| > 0 && (s[0] == '-' || s[0] == '+');
    var digits := if signed then s[1..] else s;
    if |digits| == 0 || !AllDigits(digits) then Err(NumberFormat(s))
    else
      var magnitude: int := DigitsValue(digits);
      var v := if signed && s[0] == '-' then -magnitude else magnitude;
      if LONG_MIN <= v <= LONG_MAX then Ok(v) else Err(NumberFormat(s))
  }

  function DigitChar(d: nat): char
    requires d < 10
  {
    ('0' as int + d) as char
  }

  /** The decimal digits of a natural number, most significant first. */
  function NatToString(n: nat): (r: string)
    ensures |r| > 0 && AllDigits(r)
  {
    if n < 10 then [DigitChar(n)] else NatToString(n / 10) + [DigitChar(n % 10)]
  }

  /** Long.toString: what the write path sends as the id of a `long`-keyed
      entity. */
  function LongToString(n: int): string {
    if n < 0 then "-" + NatToString(-n) else NatToString(n)
  }

  lemma {:induction false} DigitsOfNat(n: nat)
    ensures DigitsValue(NatToString(n)) == n
  {
    var s := NatToString(n);
    if n >= 10 {
      DigitsOfNat(n / 10);
      assert s[..|s| - 1] == NatToString(n / 10);
    }
  }

  /** Parsing what Long.toString prints gives the number back. */
  lemma ParseLongToString(n: int)
    requires LONG_MIN <= n <= LONG_MAX
    ensures ParseLong(LongToString(n)) == Ok(n)
  {
    var s := LongToString(n);
    if n < 0 {
      DigitsOfNat(-n);
      assert s[1..] == NatToString(-n);
    } else {
      DigitsOfNat(n);
      assert IsDigit(s[0]);
    }
  }

  /** A decimal fraction such as "1.5" is not a `long`. */
  lemma ParseLongRejectsFraction(s: string)
    requires '.' in s
    ensures ParseLong(s) == Err(NumberFormat(s))
  {
    var i :| 0 <= i < |s| && s[i] == '.';
    if |s| > 0 && (s[0] == '-' || s[0] == '+') {
      assert s[1..][i - 1] == '.';
    } else {
      assert !IsDigit(s[i]);
    }
  }

  // ---- Id decoding ----

  predicate IsStringType(t: JavaType) {
    t.Reference? && t.name == STRING_CLASS
  }

  /** createId: a String-typed id is the hit id itself; any other id type
      parses a number-like id as a `long` and keeps any other id as the
      string. `isNumber` stands for NumberUtils.isNumber. */
  function CreateId(id: string, idType: JavaType, isNumber: string -> bool): (r: Result<Id, Error>)
    ensures r.Ok? && r.value.StringId? ==> r.value.text == id
    ensures r.Ok? && r.value.LongId? ==> !IsStringType(idType) && isNumber(id) && ParseLong(id) == Ok(r.value.value)
    ensures r.Err? <==> !IsStringType(idType) && isNumber(id) && ParseLong(id).Err?
    ensures r.Err? ==> r.error == NumberFormat(id)
    ensures IsStringType(idType) || !isNumber(id) ==> r == Ok(StringId(id))
    ensures !IsStringType(idType) && isNumber(id) && ParseLong(id).Ok? ==> r == Ok(LongId(ParseLong(id).value))
  {
    if IsStringType(idType) then Ok(StringId(id))
    else if isNumber(id) then
      match ParseLong(id)
      case Ok(v) => Ok(LongId(v))
      case Err(e) => Err(e)
    else Ok(StringId(id))
  }

  /** An id written by Long.toString comes back as the same Long, whenever
      the number test accepts it. */
  lemma LongIdRoundTrip(n: int, idType: JavaType, isNumber: string -> bool)
    requires LONG_MIN <= n <= LONG_MAX
    requires !IsStringType(idType) && isNumber(LongToString(n))
    ensures CreateId(LongToString(n), idType, isNumber) == Ok(LongId(n))
  {
    ParseLongToString(n);
  }

  /** A fraction-shaped id of a non-String id field that the number test
      accepts raises NumberFormatException. */
  lemma FractionIdFails(id: string, idType: JavaType, isNumber: string -> bool)
    requires '.' in id && !IsStringType(idType) && isNumber(id)
    ensures CreateId(id, idType, isNumber) == Err(NumberFormat(id))
  {
    ParseLongRejectsFraction(id);
  }

  // ---- Request construction ----

  /** The names of the targeted entities, in order. */
  function TypesOf(targets: seq<ClassRef>): (r: seq<string>)
    ensures |r| == |targets| && forall i :: 0 <= i < |r| ==> r[i] == targets[i].Name()
  {
    if |targets| == 0 then [] else TypesOf(targets[..|targets| - 1]) + [targets[|targets| - 1].Name()]
  }

  /** The sort path of a field: its raw sub-field, as `name.name_raw`. */
  function SortPath(name: string): string {
    name + "." + name + QueryBuilder.RAW_SUFFIX
  }

  function SortClause(f: SortField): FieldSort {
    FieldSort(SortPath(f.field), if f.reverse then Desc else Asc)
  }

  /** The sort clauses of a list of sort fields, one per field, in order. */
  function SortClauses(fs: seq<SortField>): (r: seq<FieldSort>)
    ensures |r| == |fs| && forall i :: 0 <= i < |r| ==> r[i] == SortClause(fs[i])
  {
    if |fs| == 0 then [] else SortClauses(fs[..|fs| - 1]) + [SortClause(fs[|fs| - 1])]
  }

  /** The sort clauses of a query: none without a sort. */
  function SortsOf(sort: Option<seq<SortField>>): seq<FieldSort> {
    match sort
    case None => []
    case Some(fs) => SortClauses(fs)
  }

  /** The search request queryEntityInfos sends, or the error it raises
      before sending: an empty target list, a first entity without
      `@Indexed`, or a query that cannot be translated against it. */
  function RequestFor(targets: seq<ClassRef>, q: QueryBuilder.LuceneQuery, sort: Option<seq<SortField>>,
                      size: int32): (r: Result<SearchRequest, Error>)
    ensures |targets| == 0 ==> r == Err(IndexOutOfBounds(0))
    ensures r.Ok? <==> |targets| > 0 && targets[0].decl.indexed.Some? &&
                       QueryBuilder.Translate(q, targets[0].decl).Ok?
  {
    if |targets| == 0 then Err(IndexOutOfBounds(0))
    else
      match SearchUtils.GetIndexName(targets[0].decl)
      case Err(e) => Err(e)
      case Ok(index) =>
        (match QueryBuilder.Translate(q, targets[0].decl)
         case Err(e) => Err(e)
         case Ok(query) => Ok(SearchRequest(index, query, TypesOf(targets), SortsOf(sort), size)))
  }

  // ---- Hit decoding ----

  /** One hit: its class by name, the decoded id and the id field's name. */
  function DecodeHit(h: Hit, reg: Registry, isNumber: string -> bool): Result<EntityInfo, Error> {
    match SearchUtils.GetClassByName(reg, h.docType)
    case Err(e) => Err(e)
    case Ok(t) =>
      (match SearchUtils.IdFieldOf(t)
       case Err(e) => Err(e)
       case Ok(f) =>
         (match CreateId(h.id, f.fieldType, isNumber)
          case Err(e) => Err(e)
          case Ok(id) => Ok(EntityInfo(t, f.name, id))))
  }

  /** The hits decoded in order; the first hit that fails stops decoding. */
  function DecodeHits(hits: seq<Hit>, reg: Registry, isNumber: string -> bool): (r: Result<seq<EntityInfo>, Error>)
    ensures r.Ok? ==> |r.value| == |hits|
    ensures r.Ok? ==> forall i :: 0 <= i < |hits| ==> DecodeHit(hits[i], reg, isNumber) == Ok(r.value[i])
  {
    if |hits| == 0 then Ok([])
    else
      match DecodeHits(hits[..|hits| - 1], reg, isNumber)
      case Err(e) => Err(e)
      case Ok(infos) =>
        (match DecodeHit(hits[|hits| - 1], reg, isNumber)
         case Err(e) => Err(e)
         case Ok(info) => Ok(infos + [info]))
  }

  /** The result of a search, given the engine's response. */
  function ResultFor(response: SearchResponse, reg: Registry, isNumber: string -> bool): Result<seq<EntityInfo>, Error> {
    if |response.shardFailures| > 0 then Err(ShardFailure(response.shardFailures[0]))
    else DecodeHits(response.hits, reg, isNumber)
  }

  /** Decoding succeeds exactly when every hit decodes. */
  lemma {:induction false} DecodeHitsSucceeds(hits: seq<Hit>, reg: Registry, isNumber: string -> bool)
    ensures DecodeHits(hits, reg, isNumber).Ok? <==> forall i :: 0 <= i < |hits| ==> DecodeHit(hits[i], reg, isNumber).Ok?
  {
    if |hits| > 0 {
      var p := hits[..|hits| - 1];
      DecodeHitsSucceeds(p, reg, isNumber);
      assert forall i :: 0 <= i < |p| ==> p[i] == hits[i];
    }
  }

  lemma {:induction false} DecodeStopsAtFailure(hits: seq<Hit>, n: nat, reg: Registry, isNumber: string -> bool)
    requires 0 < n <= |hits| && DecodeHits(hits[..n], reg, isNumber).Err?
    ensures DecodeHits(hits, reg, isNumber) == DecodeHits(hits[..n], reg, isNumber)
    decreases |hits| - n
  {
    if n < |hits| {
      var p := hits[..|hits| - 1];
      assert p[..n] == hits[..n];
      DecodeStopsAtFailure(p, n, reg, isNumber);
    } else {
      assert hits[..n] == hits;
    }
  }

  class ElasticSearchHSQuery {
    const client: Client
    var sort: Option<seq<SortField>>
    var maxResults: int32

    constructor(elasticsearchClient: Client)
      ensures client == elasticsearchClient && sort == None && maxResults == MAX_RESULTS
    {
      client := elasticsearchClient;
      sort := None;
      maxResults := MAX_RESULTS;
    }

    /** sort: stores the sort as given. */
    method Sort(theSort: Option<seq<SortField>>)
      modifies this
      ensures sort == theSort && maxResults == old(maxResults)
    {
      sort := theSort;
    }

    /** maxResults: stores the page size verbatim, with no clamping. */
    method MaxResults(max: int32)
      modifies this
      ensures maxResults == max && sort == old(sort)
    {
      maxResults := max;
    }

    /** The loop filling the document-type array. */
    method TypeNames(targets: seq<ClassRef>) returns (types: seq<string>)
      ensures types == TypesOf(targets)
    {
      var a := new string[|targets|];
      var i := 0;
      while i < |targets|
        invariant 0 <= i <= |targets|
        invariant a[..i] == TypesOf(targets[..i])
      {
        assert targets[..i + 1][..i] == targets[..i];
        a[i] := targets[i].Name();
        i := i + 1;
      }
      assert targets[..|targets|] == targets;
      assert a[..] == a[..|targets|];
      types := a[..];
    }

    /** The loop adding one field sort per sort field. */
    method SortBuilders() returns (sorts: seq<FieldSort>)
      ensures sorts == SortsOf(sort)
    {
      sorts := [];
      if sort.None? {
        return;
      }
      var fields := sort.value;
      var i := 0;
      while i < |fields|
        invariant 0 <= i <= |fields|
        invariant sorts == SortClauses(fields[..i])
      {
        assert fields[..i + 1][..i] == fields[..i];
        var name := fields[i].field;
        var order := if fields[i].reverse then Desc else Asc;
        sorts := sorts + [FieldSort(name + "." + name + QueryBuilder.RAW_SUFFIX, order)];
        i := i + 1;
      }
      assert fields[..|fields|] == fields;
    }

    /** One iteration of the hits loop: class by name, id decoding, then the
        id field's name. */
    method DecodeOne(hit: Hit, reg: Registry, isNumber: string -> bool) returns (r: Result<EntityInfo, Error>)
      ensures r == DecodeHit(hit, reg, isNumber)
    {
      var t := SearchUtils.GetClassByName(reg, hit.docType);
      if t.Err? {
        return Err(t.error);
      }
      var idType := SearchUtils.GetIdType(t.value);
      if idType.Err? {
        return Err(idType.error);
      }
      var id := CreateId(hit.id, idType.value, isNumber);
      if id.Err? {
        return Err(id.error);
      }
      var idName := SearchUtils.GetIdName(t.value);
      r := Ok(EntityInfo(t.value, idName.value, id.value));
    }

    /** The loop over the hits, appending one entity info per hit. */
    method DecodeAll(hits: seq<Hit>, reg: Registry, isNumber: string -> bool) returns (r: Result<seq<EntityInfo>, Error>)
      ensures r == DecodeHits(hits, reg, isNumber)
    {
      var entityInfos: seq<EntityInfo> := [];
      var i := 0;
      while i < |hits|
        invariant 0 <= i <= |hits|
        invariant DecodeHits(hits[..i], reg, isNumber) == Ok(entityInfos)
      {
        assert hits[..i + 1][..i] == hits[..i];
        var info := DecodeOne(hits[i], reg, isNumber);
        if info.Err? {
          assert DecodeHits(hits[..i + 1], reg, isNumber) == Err(info.error);
          DecodeStopsAtFailure(hits, i + 1, reg, isNumber);
          return Err(info.error);
        }
        assert DecodeHits(hits[..i + 1], reg, isNumber) == Ok(entityInfos + [info.value]);
        entityInfos := entityInfos + [info.value];
        i := i + 1;
      }
      assert hits[..|hits|] == hits;
      r := Ok(entityInfos);
    }

    /** queryEntityInfos: builds and sends the search request, then checks
        the response for shard failures and decodes its hits. */
    method QueryEntityInfos(targets: seq<ClassRef>, luceneQuery: QueryBuilder.LuceneQuery, response: SearchResponse,
                            reg: Registry, isNumber: string -> bool) returns (r: Result<seq<EntityInfo>, Error>)
      modifies client
      ensures var req := RequestFor(targets, luceneQuery, sort, maxResults);
        client.log == old(client.log) + (if req.Ok? then [Search(req.value)] else [])
      ensures var req := RequestFor(targets, luceneQuery, sort, maxResults);
        r == if req.Err? then Err(req.error) else ResultFor(response, reg, isNumber)
      ensures client.indices == old(client.indices)
    {
      var types := TypeNames(targets);
      if |targets| == 0 {
        return Err(IndexOutOfBounds(0));
      }
      var entity := targets[0];
      var indexName := SearchUtils.GetIndexName(entity.decl);
      if indexName.Err? {
        return Err(indexName.error);
      }
      var query := QueryBuilder.Build(luceneQuery, entity.decl);
      if query.Err? {
        return Err(query.error);
      }
      var sorts := SortBuilders();
      client.Send(Search(SearchRequest(indexName.value, query.value, types, sorts, maxResults)));
      if |response.shardFailures| > 0 {
        return Err(ShardFailure(response.shardFailures[0]));
      }
      r := DecodeAll(response.hits, reg, isNumber);
    }
  }

  // ---- Properties of the read path ----

  /** Only the first entity's index is searched and the query is translated
      against the first entity, while every targeted entity's name is a
      document type. */
  lemma FirstEntityDecides(targets: seq<ClassRef>, q: QueryBuilder.LuceneQuery, sort: Option<seq<SortField>>, size: int32)
    requires RequestFor(targets, q, sort, size).Ok?
    ensures var req := RequestFor(targets, q, sort, size).value;
      req.index == SearchUtils.GetIndexName(targets[0].decl).value &&
      req.query == QueryBuilder.Translate(q, targets[0].decl).value &&
      req.types == TypesOf(targets) && req.size == size
    ensures forall rest ::
      (RequestFor([targets[0]] + rest, q, sort, size).Ok? &&
       RequestFor([targets[0]] + rest, q, sort, size).value.index == RequestFor(targets, q, sort, size).value.index)
  {
  }

  /** Sort fields map one-for-one and in order to `n.n_raw`, reversed ones
      to DESC and the others to ASC; without a sort there is none. */
  lemma SortClausesFollowFields(sort: Option<seq<SortField>>)
    ensures sort.None? ==> SortsOf(sort) == []
    ensures sort.Some? ==> |SortsOf(sort)| == |sort.value|
    ensures sort.Some? ==> forall i :: 0 <= i < |sort.value| ==>
      SortsOf(sort)[i].path == sort.value[i].field + "." + sort.value[i].field + "_raw" &&
      (SortsOf(sort)[i].order == Desc <==> sort.value[i].reverse)
  {
  }

  /** The sort path `n.n_raw` addresses, in the mapping of the entity, the
      not-analyzed sub-field of the property of `@Field` field n. */
  lemma SortPathNamesRawSubField(c: ClassDecl, j: nat)
    requires j < |c.fields| && c.fields[j].searchField.Some?
    ensures var ps := IndexManager.MappingOf(c).properties;
      exists i ::
        (0 <= i < |ps| && |ps[i].fields| == 2 && ps[i].fields[1].index == IndexManager.NOT_ANALYZED &&
         SortPath(c.fields[j].name) == ps[i].name + "." + ps[i].fields[1].name)
  {
    var f := c.fields[j];
    assert f in IndexManager.AnnotatedFields(c.fields);
    IndexManager.MappingHasAnnotatedFields(c.fields);
    var fs := IndexManager.AnnotatedFields(c.fields);
    var i :| 0 <= i < |fs| && fs[i] == f;
    var t := IndexManager.EsType(f.fieldType);
    assert IndexManager.PropertiesOf(c.fields)[i] ==
      MultiField(f.name, [SubField(f.name, IndexManager.ANALYZED, IndexManager.STORE_YES, t),
                          SubField(f.name + QueryBuilder.RAW_SUFFIX, IndexManager.NOT_ANALYZED, IndexManager.STORE_YES, t)]);
    assert (f.name + ".") + (f.name + QueryBuilder.RAW_SUFFIX) == SortPath(f.name);
  }

  /** Any shard failure is an error with the first failure's reason, and no
      result is returned. */
  lemma ShardFailureRaises(response: SearchResponse, reg: Registry, isNumber: string -> bool)
    requires |response.shardFailures| > 0
    ensures ResultFor(response, reg, isNumber) == Err(ShardFailure(response.shardFailures[0]))
  {
  }

  /** The results follow the hits one-for-one and in order; each carries
      the hit's class by name, that class's id-field name and the id
      decoded against that field's type. */
  lemma ResultsFollowHits(response: SearchResponse, reg: Registry, isNumber: string -> bool)
    requires ResultFor(response, reg, isNumber).Ok?
    ensures var infos := ResultFor(response, reg, isNumber).value;
      |infos| == |response.hits| &&
      forall i :: 0 <= i < |infos| ==>
        var h := response.hits[i];
        h.docType in reg && infos[i].entityType == reg[h.docType] &&
        SearchUtils.IdFieldOf(reg[h.docType]).Ok? &&
        infos[i].idName == SearchUtils.IdFieldOf(reg[h.docType]).value.name &&
        CreateId(h.id, SearchUtils.IdFieldOf(reg[h.docType]).value.fieldType, isNumber) == Ok(infos[i].id)
  {
    var infos := ResultFor(response, reg, isNumber).value;
    forall i | 0 <= i < |infos|
      ensures var h := response.hits[i];
        h.docType in reg && infos[i].entityType == reg[h.docType] &&
        SearchUtils.IdFieldOf(reg[h.docType]).Ok? &&
        infos[i].idName == SearchUtils.IdFieldOf(reg[h.docType]).value.name &&
        CreateId(h.id, SearchUtils.IdFieldOf(reg[h.docType]).value.fieldType, isNumber) == Ok(infos[i].id)
    {
      assert DecodeHit(response.hits[i], reg, isNumber) == Ok(infos[i]);
    }
  }

  /** A hit whose type or id cannot be resolved fails the whole query. */
  lemma UnresolvableHitFails(response: SearchResponse, reg: Registry, isNumber: string -> bool, i: nat)
    requires |response.shardFailures| == 0 && i < |response.hits|
    requires response.hits[i].docType !in reg ||
             SearchUtils.IdFieldOf(reg[response.hits[i].docType]).Err?
    ensures ResultFor(response, reg, isNumber).Err?
  {
    DecodeHitsSucceeds(response.hits, reg, isNumber);
  }
}
