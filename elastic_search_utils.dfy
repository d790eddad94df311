/** ElasticSearchUtils: the write path's helpers. They repeat SearchUtils,
    except for the default index name and a null check on the class. */
module ElasticSearchUtils {
  import opened Wrappers
  import opened JavaModel
  import SearchUtils

  /** SearchSessionFactory.DEFAULT_INDEX_NAME: the index written to when a
      class's `@Indexed` annotation names none. */
  const DEFAULT_INDEX_NAME: string := "esdefaultindex"

  /** getIndexName: the declared index, "" replaced by DEFAULT_INDEX_NAME. */
  function GetIndexName(c: ClassDecl): (r: Result<string, Error>)
    ensures r.Ok? <==> c.indexed.Some?
    ensures r.Ok? ==> r.value != ""
    ensures r.Ok? && c.indexed.value != "" ==> r.value == c.indexed.value
    ensures r.Ok? && c.indexed.value == "" ==> r.value == DEFAULT_INDEX_NAME
  {
    match c.indexed
    case None => Err(NullPointer("@Indexed"))
    case Some(name) => if name == "" then Ok(DEFAULT_INDEX_NAME) else Ok(name)
  }

  /** getClassByName: Class.forName of the name, failing for an unknown one. */
  function GetClassByName(reg: Registry, name: string): (r: Result<ClassRef, Error>)
    ensures r.Ok? <==> name in reg
    ensures r.Err? ==> r.error == ClassNotFound(name)
  {
    ClassForName(reg, name)
  }

  const NULL_TYPE_MESSAGE: string := "The type cannot be null"

  /** getFieldId: rejects a null type (None), then runs the same superclass
      walk as SearchUtils.GetFieldId. */
  method GetFieldId(t: Option<ClassRef>) returns (r: Result<FieldDecl, Error>)
    ensures t.None? ==> r == Err(IllegalArgument(NULL_TYPE_MESSAGE))
    ensures t.Some? ==> r == SearchUtils.IdFieldOf(t.value)
    ensures r.Ok? ==> r.value.isId
  {
    if t.None? {
      return Err(IllegalArgument(NULL_TYPE_MESSAGE));
    }
    r := SearchUtils.GetFieldId(t.value);
  }

  /** getIdName: the name of the field getFieldId returns. */
  method GetIdName(t: Option<ClassRef>) returns (r: Result<string, Error>)
    ensures t.None? ==> r == Err(IllegalArgument(NULL_TYPE_MESSAGE))
    ensures t.Some? ==> (r.Ok? <==> SearchUtils.IdFieldOf(t.value).Ok?)
    ensures t.Some? && r.Ok? ==> r.value == SearchUtils.IdFieldOf(t.value).value.name
  {
    var f := GetFieldId(t);
    if f.Err? { return Err(f.error); }
    return Ok(f.value.name);
  }

  /** getIdType: the declared type of the field getFieldId returns. */
  method GetIdType(t: Option<ClassRef>) returns (r: Result<JavaType, Error>)
    ensures t.None? ==> r == Err(IllegalArgument(NULL_TYPE_MESSAGE))
    ensures t.Some? ==> (r.Ok? <==> SearchUtils.IdFieldOf(t.value).Ok?)
    ensures t.Some? && r.Ok? ==> r.value == SearchUtils.IdFieldOf(t.value).value.fieldType
  {
    var f := GetFieldId(t);
    if f.Err? { return Err(f.error); }
    return Ok(f.value.fieldType);
  }

  /** The two helpers agree on every declared index name but the empty one,
      where writes go to "esdefaultindex" and searches to "55social". */
  lemma IndexNameDefaultsDiffer(c: ClassDecl)
    requires c.indexed.Some?
    ensures c.indexed.value != "" ==> GetIndexName(c) == SearchUtils.GetIndexName(c)
    ensures c.indexed.value == "" ==> GetIndexName(c) != SearchUtils.GetIndexName(c)
  {
  }
}
