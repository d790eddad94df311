/** The test fixture MockEntity run through the model: the write-path runs
    of the backend queue tests, the mapping its index is created with, and
    how wildcards on its fields are translated. */
module MockEntityScenarios {
  import opened Wrappers
  import opened JavaModel
  import opened EsClient
  import QueryBuilder
  import BackendQueue
  import IndexManager

  const MOCK_ENTITY_CLASS: string := "org.hibernate.search.elasticsearch.MockEntity"

  /** MockEntity: `@Indexed(index = "mock_entity")`, a `long` `@Id`, and six
      `@Field` fields; only `gender` is un-tokenized (Index.TOKENIZED is the
      annotation's default). */
  const MOCK_ENTITY: ClassDecl := ClassDecl(MOCK_ENTITY_CLASS, Some("mock_entity"), [
    FieldDecl("id", Primitive("long"), None, true),
    FieldDecl("name", Reference(STRING_CLASS, false), Some(Tokenized), false),
    FieldDecl("description", Reference(STRING_CLASS, false), Some(Tokenized), false),
    FieldDecl("gender", Reference(STRING_CLASS, false), Some(UnTokenized), false),
    FieldDecl("age", Reference("java.lang.Integer", true), Some(Tokenized), false),
    FieldDecl("year", Primitive("int"), Some(Tokenized), false),
    FieldDecl("date", Reference(DATE_CLASS, false), Some(Tokenized), false)])

  /** An Add work with id "1" and an empty document is sent as one bulk
      holding one index operation on "mock_entity", typed by the class name. */
  lemma AddOfMockEntity()
    ensures BackendQueue.RunLog([], [BackendQueue.AddWork(MOCK_ENTITY, "1", [])], false)
         == [Bulk([IndexOp("mock_entity", MOCK_ENTITY_CLASS, "1", [])])]
    ensures BackendQueue.RunOutcome([BackendQueue.AddWork(MOCK_ENTITY, "1", [])], false) == Pass
  {
    var ws := [BackendQueue.AddWork(MOCK_ENTITY, "1", [])];
    assert ws[..0] == [];
    assert BackendQueue.Dispatch(ws).ops == [IndexOp("mock_entity", MOCK_ENTITY_CLASS, "1", [])];
  }

  /** A Delete work with id "1" is sent as one delete request on
      "mock_entity", followed by the (empty) bulk. */
  lemma DeleteOfMockEntity()
    ensures BackendQueue.RunLog([], [BackendQueue.DeleteWork(MOCK_ENTITY, "1")], false)
         == [DeleteDocument("mock_entity", MOCK_ENTITY_CLASS, "1"), Bulk([])]
  {
    var ws := [BackendQueue.DeleteWork(MOCK_ENTITY, "1")];
    assert ws[..0] == [];
    assert BackendQueue.Dispatch(ws).deletes == [DeleteDocument("mock_entity", MOCK_ENTITY_CLASS, "1")];
    assert BackendQueue.Dispatch(ws).ops == [];
    var none: seq<IndexOp> := [];
    assert none + none == none;
  }

  /** A field list whose every field carries `@Field` is its own annotated list. */
  lemma {:induction false} AllFieldsAnnotated(fs: seq<FieldDecl>)
    requires forall i :: 0 <= i < |fs| ==> fs[i].searchField.Some?
    ensures IndexManager.AnnotatedFields(fs) == fs
  {
    if |fs| > 0 {
      AllFieldsAnnotated(fs[1..]);
      assert [fs[0]] + fs[1..] == fs;
    }
  }

  /** Every field of MockEntity but its id carries `@Field`. */
  lemma AnnotatedMockFields()
    ensures IndexManager.AnnotatedFields(MOCK_ENTITY.fields) == MOCK_ENTITY.fields[1..]
  {
    AllFieldsAnnotated(MOCK_ENTITY.fields[1..]);
  }

  /** The mapping of MockEntity: the six `@Field` fields in declaration
      order, the id left out, with the ES types getType assigns to a String,
      an Integer, an int and a Date. */
  lemma MockEntityMapping()
    ensures var ps := IndexManager.MappingOf(MOCK_ENTITY).properties;
      |ps| == 6 &&
      (forall i :: 0 <= i < 6 ==> ps[i].name == MOCK_ENTITY.fields[i + 1].name && |ps[i].fields| == 2) &&
      ps[0].fields[0].dataType == "string" && ps[3].fields[0].dataType == "integer" &&
      ps[4].fields[0].dataType == "integer" && ps[5].fields[0].dataType == "date"
  {
    AnnotatedMockFields();
    IndexManager.MappingHasAnnotatedFields(MOCK_ENTITY.fields);
    IndexManager.IntegerAgreesWithInt();
    IndexManager.ReferenceTypeTable(STRING_CLASS);
  }

  /** getDeclaredField finds the first field of the name. */
  lemma {:induction false} FirstFieldNamed(fs: seq<FieldDecl>, name: string, j: nat)
    requires j < |fs| && fs[j].name == name
    requires forall i :: 0 <= i < j ==> fs[i].name != name
    ensures DeclaredField(fs, name) == Some(j)
  {
    if j > 0 {
      FirstFieldNamed(fs[1..], name, j - 1);
    }
  }

  /** A wildcard on the un-tokenized `gender` goes to `gender_raw`; one on
      the tokenized `name` falls back to query_string. */
  lemma WildcardsOnMockEntity()
    ensures QueryBuilder.Translate(QueryBuilder.WildcardQuery("gender:ma*", QueryBuilder.Term("gender", "ma*")), MOCK_ENTITY)
         == Ok(QueryBuilder.Wildcard("gender_raw", "ma*"))
    ensures QueryBuilder.Translate(QueryBuilder.WildcardQuery("name:jo*", QueryBuilder.Term("name", "jo*")), MOCK_ENTITY)
         == Ok(QueryBuilder.QueryString("name:jo*"))
  {
    FirstFieldNamed(MOCK_ENTITY.fields, "gender", 3);
    assert "gender" + QueryBuilder.RAW_SUFFIX == "gender_raw";
    FirstFieldNamed(MOCK_ENTITY.fields, "name", 1);
  }
}
