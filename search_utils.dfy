/** SearchUtils: the read path's helpers for index names, class lookup and
    the `@Id` field of an entity class. */
module SearchUtils {
  import opened Wrappers
  import opened JavaModel

  /** The index searched when a class's `@Indexed` annotation names none. */
  const DEFAULT_INDEX_NAME: string := "55social"

  /** getIndexName: the declared index, "" replaced by DEFAULT_INDEX_NAME.
      A class without `@Indexed` has no annotation to read: a null dereference. */
  function GetIndexName(c: ClassDecl): (r: Result<string, Error>)
    ensures r.Ok? <==> c.indexed.Some?
    ensures r.Ok? ==> r.value != ""
    ensures r.Ok? && c.indexed.value != "" ==> r.value == c.indexed.value
    ensures r.Ok? && c.indexed.value == "" ==> r.value == DEFAULT_INDEX_NAME
  {
    match c.indexed
    case None => Err(NullPointer("@Indexed"))
    case Some(name) => if name == "" then Ok(DEFAULT_INDEX_NAME) else Ok(name)
  }

  /** getClassByName: Class.forName of the name, failing for an unknown one. */
  function GetClassByName(reg: Registry, name: string): (r: Result<ClassRef, Error>)
    ensures r.Ok? <==> name in reg
    ensures r.Err? ==> r.error == ClassNotFound(name)
    ensures r.Ok? && WellFormedRegistry(reg) ==> r.value.Name() == name
  {
    ClassForName(reg, name)
  }

  ghost predicate HasNoId(c: ClassDecl) {
    forall j :: 0 <= j < |c.fields| ==> !c.fields[j].isId
  }

  /** The position of the first `@Id` field in a field list. */
  function FirstIdIn(fields: seq<FieldDecl>): (r: Option<nat>)
    ensures r.Some? ==> r.value < |fields| && fields[r.value].isId
    ensures r.Some? ==> forall j :: 0 <= j < r.value ==> !fields[j].isId
    ensures r.None? ==> forall j :: 0 <= j < |fields| ==> !fields[j].isId
  {
    if |fields| == 0 then None
    else if fields[0].isId then Some(0)
    else match FirstIdIn(fields[1..])
      case None => None
      case Some(j) => Some(j + 1)
  }

  /** Where the `@Id` field getFieldId returns sits: the class index k in the
      chain (subclass first) and the field index j in that class. It is the
      first `@Id` field of the first class that declares one. */
  function FirstIdPosition(chain: seq<ClassDecl>): (r: Option<(nat, nat)>)
    ensures r.Some? ==> r.value.0 < |chain| && r.value.1 < |chain[r.value.0].fields|
    ensures r.Some? ==> chain[r.value.0].fields[r.value.1].isId
    ensures r.Some? ==> forall k :: 0 <= k < r.value.0 ==> HasNoId(chain[k])
    ensures r.Some? ==> forall j :: 0 <= j < r.value.1 ==> !chain[r.value.0].fields[j].isId
    ensures r.None? ==> forall k :: 0 <= k < |chain| ==> HasNoId(chain[k])
  {
    if |chain| == 0 then None
    else match FirstIdIn(chain[0].fields)
      case Some(j) => Some((0, j))
      case None =>
        match FirstIdPosition(chain[1..])
        case None => None
        case Some(p) => Some((p.0 + 1, p.1))
  }

  /** The field getFieldId returns for t, or the error it raises. */
  function IdFieldOf(t: ClassRef): Result<FieldDecl, Error> {
    var chain := t.Chain();
    match FirstIdPosition(chain)
    case Some(p) => Ok(chain[p.0].fields[p.1])
    case None => Err(NoIdProperty(t.Name()))
  }

  /** getFieldId: walks from t up its superclasses (Object excluded), and in
      each class through its declared fields, returning the first `@Id` field. */
  method GetFieldId(t: ClassRef) returns (r: Result<FieldDecl, Error>)
    ensures r == IdFieldOf(t)
    ensures r.Ok? ==> r.value.isId
  {
    var chain := t.Chain();
    var k := 0;
    // The source's do-while runs its body at least once; the chain always
    // holds t itself, so this loop does too.
    while k < |chain|
      invariant 0 <= k <= |chain|
      invariant forall k' :: 0 <= k' < k ==> HasNoId(chain[k'])
    {
      var current := chain[k];
      var j := 0;
      while j < |current.fields|
        invariant 0 <= j <= |current.fields|
        invariant forall j' :: 0 <= j' < j ==> !current.fields[j'].isId
      {
        if current.fields[j].isId {
          assert FirstIdPosition(chain) == Some((k, j));
          return Ok(current.fields[j]);
        }
        j := j + 1;
      }
      k := k + 1;
    }
    return Err(NoIdProperty(t.Name()));
  }

  /** getIdName: the name of the field getFieldId returns. */
  method GetIdName(t: ClassRef) returns (r: Result<string, Error>)
    ensures r.Ok? <==> IdFieldOf(t).Ok?
    ensures r.Ok? ==> r.value == IdFieldOf(t).value.name
    ensures r.Err? ==> r.error == NoIdProperty(t.Name())
  {
    var f := GetFieldId(t);
    if f.Err? { return Err(f.error); }
    return Ok(f.value.name);
  }

  /** getIdType: the declared type of the field getFieldId returns. */
  method GetIdType(t: ClassRef) returns (r: Result<JavaType, Error>)
    ensures r.Ok? <==> IdFieldOf(t).Ok?
    ensures r.Ok? ==> r.value == IdFieldOf(t).value.fieldType
    ensures r.Err? ==> r.error == NoIdProperty(t.Name())
  {
    var f := GetFieldId(t);
    if f.Err? { return Err(f.error); }
    return Ok(f.value.fieldType);
  }

  /** A subclass's own `@Id` field hides every `@Id` field of its superclasses,
      and the first one it declares wins. */
  lemma {:induction false} SubclassIdWins(t: ClassRef, j: nat)
    requires j < |t.decl.fields| && t.decl.fields[j].isId
    requires forall i :: 0 <= i < j ==> !t.decl.fields[i].isId
    ensures IdFieldOf(t) == Ok(t.decl.fields[j])
  {
    var p := FirstIdPosition(t.Chain()).value;
    assert t.Chain()[0] == t.decl;
    assert !HasNoId(t.Chain()[0]);
    assert p.0 == 0;
  }

  /** With no `@Id` field anywhere below Object the lookup fails, naming t;
      with one anywhere, it succeeds. */
  lemma NoIdFieldFails(t: ClassRef)
    ensures IdFieldOf(t).Err? <==> forall k :: 0 <= k < |t.Chain()| ==> HasNoId(t.Chain()[k])
    ensures IdFieldOf(t).Err? ==> IdFieldOf(t).error == NoIdProperty(t.Name())
  {
  }
}
