/** ElasticsearchIndexManager: creates, deletes and recreates the index of
    an `@Indexed` class. The mapping it sends gives every `@Field` field a
    `multi_field` with an analyzed sub-field of the field's own name and a
    not-analyzed twin with the `_raw` suffix, both stored, both of the ES
    type derived from the field's Java type. */
module IndexManager {
  import opened Wrappers
  import opened JavaModel
  import opened EsClient
  import QueryBuilder
  import SearchUtils
  import ElasticSearchUtils

  const ANALYZED: string := "analyzed"
  const NOT_ANALYZED: string := "not_analyzed"
  const STORE_YES: string := "yes"

  /** getType: the ES type name of a field's Java type. */
  function EsType(t: JavaType): string {
    match t
    case Primitive(name) => if name == "int" then "integer" else name
    case Reference(name, numberSubclass) =>
      if name == DATE_CLASS then "date"
      else if numberSubclass then ToLower(name[LastIndexOf(name, '.') + 1..])
      else if name in BOOLEAN_SUPERTYPES then "boolean"
      else "string"
  }

  /** The position of the last '.' in a name whose last segment has none. */
  lemma {:induction false} LastDotBeforeSimpleName(prefix: string, simple: string)
    requires '.' !in simple
    ensures LastIndexOf(prefix + "." + simple, '.') == |prefix|
    decreases |simple|
  {
    var s := prefix + "." + simple;
    if |simple| > 0 {
      assert s[..|s| - 1] == prefix + "." + simple[..|simple| - 1];
      LastDotBeforeSimpleName(prefix, simple[..|simple| - 1]);
    } else {
      assert s[|s| - 1] == '.';
    }
  }

  /** A Number subclass maps to its lowercased simple name: the part after
      the package, which holds no '.'. */
  lemma NumberTypeIsSimpleName(package: string, simple: string)
    requires '.' !in simple && package + "." + simple != DATE_CLASS
    ensures EsType(Reference(package + "." + simple, true)) == ToLower(simple)
    ensures '.' !in EsType(Reference(package + "." + simple, true))
  {
    var name := package + "." + simple;
    LastDotBeforeSimpleName(package, simple);
    assert name[|package| + 1..] == simple;
    var r := ToLower(simple);
    forall i | 0 <= i < |r| ensures r[i] != '.' {
      assert simple[i] != '.';
    }
  }

  /** A boxed number class of java.lang gets the type its lowercased simple
      name gives. */
  lemma BoxedNumberType(simple: string, primitive: string)
    requires '.' !in simple && "java.lang." + simple != DATE_CLASS
    requires ToLower(simple) == primitive
    ensures EsType(Reference("java.lang." + simple, true)) == primitive
  {
    assert "java.lang" + "." + simple == "java.lang." + simple;
    NumberTypeIsSimpleName("java.lang", simple);
  }

  /** A boxed Integer field and an int field get the same ES type. */
  lemma IntegerAgreesWithInt()
    ensures EsType(Reference("java.lang.Integer", true)) == EsType(Primitive("int")) == "integer"
  {
    assert ToLower("Integer") == "integer" by {
      assert ToLower("Integer")[0] == 'i';
    }
    BoxedNumberType("Integer", "integer");
    assert "java.lang." + "Integer" == "java.lang.Integer";
  }

  /** A boxed Long field and a long field get the same ES type. */
  lemma LongAgreesWithLong()
    ensures EsType(Reference("java.lang.Long", true)) == EsType(Primitive("long")) == "long"
  {
    assert "java.lang.Long"[5] != DATE_CLASS[5];
    assert ToLower("Long") == "long" by {
      assert ToLower("Long")[0] == 'l';
    }
    BoxedNumberType("Long", "long");
    assert "java.lang." + "Long" == "java.lang.Long";
  }

  /** A boxed Double field and a double field get the same ES type. */
  lemma DoubleAgreesWithDouble()
    ensures EsType(Reference("java.lang.Double", true)) == EsType(Primitive("double")) == "double"
  {
    assert ToLower("Double") == "double" by {
      assert ToLower("Double")[0] == 'd';
    }
    BoxedNumberType("Double", "double");
    assert "java.lang." + "Double" == "java.lang.Double";
  }

  /** The remaining rows of the table: Date, the supertypes of Boolean and
      any other reference type. */
  lemma ReferenceTypeTable(name: string)
    ensures EsType(Reference(DATE_CLASS, false)) == "date"
    ensures name in BOOLEAN_SUPERTYPES ==> EsType(Reference(name, false)) == "boolean"
    ensures name != DATE_CLASS && name !in BOOLEAN_SUPERTYPES ==> EsType(Reference(name, false)) == "string"
    ensures EsType(Reference(STRING_CLASS, false)) == "string"
  {
  }

  /** The `multi_field` property of one `@Field` field. */
  function PropertyFor(f: FieldDecl): Property {
    var t := EsType(f.fieldType);
    MultiField(f.name, [SubField(f.name, ANALYZED, STORE_YES, t),
                        SubField(f.name + QueryBuilder.RAW_SUFFIX, NOT_ANALYZED, STORE_YES, t)])
  }

  /** The properties the mapping loop writes for a prefix of the fields. */
  function PropertiesOf(fields: seq<FieldDecl>): seq<Property> {
    if |fields| == 0 then []
    else
      var last := fields[|fields| - 1];
      PropertiesOf(fields[..|fields| - 1]) + (if last.searchField.Some? then [PropertyFor(last)] else [])
  }

  /** The `@Field`-annotated fields, in declaration order. */
  function AnnotatedFields(fields: seq<FieldDecl>): (r: seq<FieldDecl>)
    ensures forall f :: f in r <==> f in fields && f.searchField.Some?
  {
    if |fields| == 0 then []
    else (if fields[0].searchField.Some? then [fields[0]] else []) + AnnotatedFields(fields[1..])
  }

  /** The mapping of a class, keyed by its fully-qualified name. */
  function MappingOf(c: ClassDecl): Mapping {
    Mapping(c.name, PropertiesOf(c.fields))
  }

  lemma {:induction false} AnnotatedFieldsSnoc(fields: seq<FieldDecl>, f: FieldDecl)
    ensures AnnotatedFields(fields + [f]) == AnnotatedFields(fields) + (if f.searchField.Some? then [f] else [])
  {
    if |fields| == 0 {
      assert fields + [f] == [f];
      assert [f][1..] == [];
    } else {
      assert (fields + [f])[1..] == fields[1..] + [f];
      AnnotatedFieldsSnoc(fields[1..], f);
    }
  }

  /** The mapping has exactly the `@Field` fields, in declaration order, each
      as a `multi_field` with the analyzed sub-field `f` and the not-analyzed
      sub-field `f_raw`, both stored and of the same type. */
  lemma {:induction false} MappingHasAnnotatedFields(fields: seq<FieldDecl>)
    ensures |PropertiesOf(fields)| == |AnnotatedFields(fields)|
    ensures forall i :: 0 <= i < |PropertiesOf(fields)| ==>
      var f := AnnotatedFields(fields)[i];
      var t := EsType(f.fieldType);
      PropertiesOf(fields)[i] ==
        MultiField(f.name, [SubField(f.name, ANALYZED, STORE_YES, t),
                            SubField(f.name + QueryBuilder.RAW_SUFFIX, NOT_ANALYZED, STORE_YES, t)])
  {
    if |fields| > 0 {
      var p := fields[..|fields| - 1];
      var last := fields[|fields| - 1];
      MappingHasAnnotatedFields(p);
      assert p + [last] == fields;
      AnnotatedFieldsSnoc(p, last);
    }
  }

  /** The outcome of the admin calls of one operation: the requests sent,
      the indices that exist afterwards, and how it ended. */
  datatype Admin = Admin(requests: seq<Request>, indices: set<string>, outcome: Outcome<Error>)

  /** createIndex of one class against the given existing indices, with an
      engine that acknowledges creation or not. The index name is the raw
      `@Indexed` value, with no default. */
  function CreateIndexStep(c: ClassDecl, indices: set<string>, ack: bool): Admin {
    match c.indexed
    case None => Admin([], indices, Pass)
    case Some(n) =>
      if n in indices then Admin([IndicesExists(n), AwaitYellow(n)], indices, Pass)
      else if !ack then Admin([IndicesExists(n), CreateIndex(n, MappingOf(c))], indices,
                              Fail(CannotCreateIndex(NotAcknowledged)))
      else Admin([IndicesExists(n), CreateIndex(n, MappingOf(c)), AwaitYellow(n)], indices + {n}, Pass)
  }

  /** The list overload: one createIndex per class in list order, stopping
      at the first that fails. */
  function CreateAll(classes: seq<ClassDecl>, indices: set<string>, ack: bool): Admin {
    if |classes| == 0 then Admin([], indices, Pass)
    else
      var p := CreateAll(classes[..|classes| - 1], indices, ack);
      if p.outcome.Fail? then p
      else
        var s := CreateIndexStep(classes[|classes| - 1], p.indices, ack);
        Admin(p.requests + s.requests, s.indices, s.outcome)
  }

  /** The index deleteIndex names: the raw `@Indexed` value, or "". */
  function DeleteTarget(c: ClassDecl): string {
    if c.indexed.Some? then c.indexed.value else ""
  }

  /** Mapping construction: one property per `@Field` declared field. */
  method BuildMapping(c: ClassDecl) returns (m: Mapping)
    ensures m == MappingOf(c)
  {
    var theType := c.name;
    var properties: seq<Property> := [];
    var i := 0;
    while i < |c.fields|
      invariant 0 <= i <= |c.fields|
      invariant properties == PropertiesOf(c.fields[..i])
    {
      assert c.fields[..i + 1][..i] == c.fields[..i];
      var field := c.fields[i];
      if field.searchField.Some? {
        var dataType := EsType(field.fieldType);
        properties := properties + [MultiField(field.name, [
          SubField(field.name, ANALYZED, STORE_YES, dataType),
          SubField(field.name + QueryBuilder.RAW_SUFFIX, NOT_ANALYZED, STORE_YES, dataType)])];
      }
      i := i + 1;
    }
    assert c.fields[..|c.fields|] == c.fields;
    m := Mapping(theType, properties);
  }

  /** createIndex: for an `@Indexed` class, asks whether its index exists,
      creates it with the class's mapping when it does not, and waits for
      yellow health; an unacknowledged create is an error. */
  method CreateIndexOf(c: ClassDecl, client: Client) returns (r: Outcome<Error>)
    modifies client
    ensures var s := CreateIndexStep(c, old(client.indices), client.acknowledgesCreate);
      client.log == old(client.log) + s.requests && client.indices == s.indices && r == s.outcome
  {
    if c.indexed.None? {
      return Pass;
    }
    var indexName := c.indexed.value;
    var present := client.Exists(indexName);
    if !present {
      var mapping := BuildMapping(c);
      var acknowledged := client.Create(indexName, mapping);
      if !acknowledged {
        return Fail(CannotCreateIndex(NotAcknowledged));
      }
    }
    client.Send(AwaitYellow(indexName));
    r := Pass;
  }

  /** Once a class has failed, the classes after it are never looked at. */
  lemma {:induction false} CreateAllStopsAtFailure(classes: seq<ClassDecl>, n: nat, indices: set<string>, ack: bool)
    requires 0 < n <= |classes| && CreateAll(classes[..n], indices, ack).outcome.Fail?
    ensures CreateAll(classes, indices, ack) == CreateAll(classes[..n], indices, ack)
    decreases |classes| - n
  {
    if n < |classes| {
      var p := classes[..|classes| - 1];
      assert p[..n] == classes[..n];
      CreateAllStopsAtFailure(p, n, indices, ack);
    } else {
      assert classes[..n] == classes;
    }
  }

  /** createIndex, list overload. */
  method CreateIndexes(classes: seq<ClassDecl>, client: Client) returns (r: Outcome<Error>)
    modifies client
    ensures var s := CreateAll(classes, old(client.indices), client.acknowledgesCreate);
      client.log == old(client.log) + s.requests && client.indices == s.indices && r == s.outcome
  {
    var i := 0;
    while i < |classes|
      invariant 0 <= i <= |classes|
      invariant var s := CreateAll(classes[..i], old(client.indices), client.acknowledgesCreate);
        s.outcome.Pass? && client.log == old(client.log) + s.requests && client.indices == s.indices
    {
      assert classes[..i + 1][..i] == classes[..i];
      r := CreateIndexOf(classes[i], client);
      if r.Fail? {
        CreateAllStopsAtFailure(classes, i + 1, old(client.indices), client.acknowledgesCreate);
        return;
      }
      i := i + 1;
    }
    assert classes[..|classes|] == classes;
    r := Pass;
  }

  /** deleteIndex: sends the delete request and swallows its failure, so it
      never raises, whether or not the index exists. */
  method DeleteIndexOf(c: ClassDecl, client: Client)
    modifies client
    ensures client.log == old(client.log) + [DeleteIndex(DeleteTarget(c))]
    ensures client.indices == old(client.indices) - {DeleteTarget(c)}
  {
    var index := "";
    if c.indexed.Some? {
      index := c.indexed.value;
    }
    var found := client.Remove(index);
  }

  /** recreateIndex: deleteIndex, then createIndex. */
  method RecreateIndex(c: ClassDecl, client: Client) returns (r: Outcome<Error>)
    modifies client
    ensures var s := CreateIndexStep(c, old(client.indices) - {DeleteTarget(c)}, client.acknowledgesCreate);
      client.log == old(client.log) + [DeleteIndex(DeleteTarget(c))] + s.requests &&
      client.indices == s.indices && r == s.outcome
  {
    DeleteIndexOf(c, client);
    r := CreateIndexOf(c, client);
  }

  // ---- Properties of index management ----

  /** A class without `@Indexed` causes no request and no error. */
  lemma NotIndexedSendsNothing(c: ClassDecl, indices: set<string>, ack: bool)
    requires c.indexed.None?
    ensures CreateIndexStep(c, indices, ack) == Admin([], indices, Pass)
  {
  }

  /** An existing index is not created again, but its health is still
      awaited. */
  lemma ExistingIndexSkipsCreate(c: ClassDecl, indices: set<string>, ack: bool)
    requires c.indexed.Some? && c.indexed.value in indices
    ensures var s := CreateIndexStep(c, indices, ack);
      s.outcome == Pass && s.indices == indices && AwaitYellow(c.indexed.value) in s.requests &&
      forall r :: r in s.requests ==> !r.CreateIndex?
  {
  }

  /** An unacknowledged create is an error, and no health wait follows. */
  lemma UnacknowledgedCreateFails(c: ClassDecl, indices: set<string>)
    requires c.indexed.Some? && c.indexed.value !in indices
    ensures var s := CreateIndexStep(c, indices, false);
      s.outcome == Fail(CannotCreateIndex(NotAcknowledged)) && s.indices == indices &&
      CreateIndex(c.indexed.value, MappingOf(c)) in s.requests &&
      forall r :: r in s.requests ==> !r.AwaitYellow?
  {
  }

  /** After a successful createIndex the class's index exists; the set of
      indices only ever grows. */
  lemma CreatedIndexExists(c: ClassDecl, indices: set<string>, ack: bool)
    ensures indices <= CreateIndexStep(c, indices, ack).indices
    ensures CreateIndexStep(c, indices, ack).outcome.Pass? && c.indexed.Some? ==>
              c.indexed.value in CreateIndexStep(c, indices, ack).indices
  {
  }

  /** Calling createIndex twice sends at most one create request: one call
      sends at most one, and a call after a successful one sends none. */
  lemma CreateTwiceCreatesOnce(c: ClassDecl, indices: set<string>, ack: bool)
    ensures var s := CreateIndexStep(c, indices, ack);
      forall i, j ::
        (0 <= i < |s.requests| && 0 <= j < |s.requests| && s.requests[i].CreateIndex? && s.requests[j].CreateIndex?)
        ==> i == j
    ensures var s := CreateIndexStep(c, indices, ack);
      s.outcome.Pass? ==> forall r :: r in CreateIndexStep(c, s.indices, ack).requests ==> !r.CreateIndex?
  {
    CreatedIndexExists(c, indices, ack);
  }

  /** For an empty `@Indexed` name, creation and deletion use the raw name
      "", the write path "esdefaultindex" and the read path "55social":
      three different indices. */
  lemma EmptyIndexNameDisagrees(c: ClassDecl, indices: set<string>, ack: bool)
    requires c.indexed == Some("")
    ensures CreateIndexStep(c, indices, ack).requests[0] == IndicesExists("")
    ensures DeleteTarget(c) == ""
    ensures ElasticSearchUtils.GetIndexName(c) == Ok(ElasticSearchUtils.DEFAULT_INDEX_NAME)
    ensures SearchUtils.GetIndexName(c) == Ok(SearchUtils.DEFAULT_INDEX_NAME)
    ensures "" != ElasticSearchUtils.DEFAULT_INDEX_NAME && "" != SearchUtils.DEFAULT_INDEX_NAME
    ensures ElasticSearchUtils.DEFAULT_INDEX_NAME != SearchUtils.DEFAULT_INDEX_NAME
  {
  }

  /** When the list overload succeeds, the index of every `@Indexed` class of
      the list exists. */
  lemma {:induction false} CreateAllCreatesEvery(classes: seq<ClassDecl>, indices: set<string>, ack: bool)
    ensures indices <= CreateAll(classes, indices, ack).indices
    ensures CreateAll(classes, indices, ack).outcome.Pass? ==>
      forall i :: 0 <= i < |classes| && classes[i].indexed.Some? ==>
        classes[i].indexed.value in CreateAll(classes, indices, ack).indices
  {
    if |classes| > 0 {
      var p := classes[..|classes| - 1];
      CreateAllCreatesEvery(p, indices, ack);
      var pr := CreateAll(p, indices, ack);
      CreatedIndexExists(classes[|classes| - 1], pr.indices, ack);
    }
  }

  /** recreateIndex always sends a create request for an `@Indexed` class,
      since the delete has just removed its index. */
  lemma RecreateAlwaysCreates(c: ClassDecl, indices: set<string>, ack: bool)
    requires c.indexed.Some?
    ensures CreateIndex(c.indexed.value, MappingOf(c)) in
            CreateIndexStep(c, indices - {DeleteTarget(c)}, ack).requests
  {
  }

  /** The `_raw` field a wildcard is sent to is the not-analyzed sub-field
      the mapping declares for that `@Field` field. */
  lemma WildcardTargetsRawSubField(q: QueryBuilder.LuceneQuery, entity: ClassDecl)
    requires q.WildcardQuery? && QueryBuilder.TranslateWildcard(q, entity).Ok?
    requires QueryBuilder.TranslateWildcard(q, entity).value.Wildcard?
    ensures var ps := MappingOf(entity).properties;
      exists i ::
        (0 <= i < |ps| && ps[i].name == q.term.field && |ps[i].fields| == 2 &&
         ps[i].fields[1].name == QueryBuilder.TranslateWildcard(q, entity).value.field &&
         ps[i].fields[1].index == NOT_ANALYZED)
  {
    var j := DeclaredField(entity.fields, q.term.field).value;
    var f := entity.fields[j];
    assert f.searchField == Some(UnTokenized);
    assert f in AnnotatedFields(entity.fields);
    MappingHasAnnotatedFields(entity.fields);
    var fs := AnnotatedFields(entity.fields);
    var i :| 0 <= i < |fs| && fs[i] == f;
    var t := EsType(f.fieldType);
    assert QueryBuilder.TranslateWildcard(q, entity) ==
      Ok(QueryBuilder.Wildcard(q.term.field + QueryBuilder.RAW_SUFFIX, q.term.text));
    assert PropertiesOf(entity.fields)[i] ==
      MultiField(f.name, [SubField(f.name, ANALYZED, STORE_YES, t),
                          SubField(f.name + QueryBuilder.RAW_SUFFIX, NOT_ANALYZED, STORE_YES, t)]);
  }
}
