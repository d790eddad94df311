/** The part of the Java runtime the connector reflects on, as plain records:
    classes with their `@Indexed` index name, their declared fields with type,
    `@Field` and `@Id` flags, and their superclass chain; plus the exceptions
    the connector's code can raise. */
module JavaModel {
  import opened Wrappers

  /** The exceptions the connector raises, by the condition that raises them. */
  datatype Error =
    | NullPointer(what: string)          // a missing annotation or a null reference is dereferenced
    | IllegalArgument(message: string)   // a Validate.notNull check fails
    | ClassNotFound(className: string)   // Class.forName finds no class
    | NoSuchField(fieldName: string)     // Class.getDeclaredField finds no field
    | NoIdProperty(typeName: string)     // no class in the chain declares an @Id field
    | IndexOutOfBounds(index: int)       // List.get on a too-short list
    | NumberFormat(text: string)         // Long.parseLong rejects its input
    | ShardFailure(reason: string)       // a search response reports a failed shard
    | NotAcknowledged                    // the create-index request was not acknowledged
    | CannotCreateIndex(cause: Error)    // createIndex wraps every failure in this

  const STRING_CLASS: string := "java.lang.String"
  const DATE_CLASS: string := "java.util.Date"
  /** Boolean.class and the types it is assignable to: the types t for which
      t.isAssignableFrom(Boolean.class) holds. */
  const BOOLEAN_SUPERTYPES: set<string> :=
    {"java.lang.Boolean", "java.lang.Object", "java.io.Serializable", "java.lang.Comparable"}

  /** A field's declared Java type. For a reference type the model records
      whether it is a subclass of java.lang.Number, which reflection decides. */
  datatype JavaType =
    | Primitive(name: string)
    | Reference(name: string, numberSubclass: bool)

  /** The `index` attribute of the `@Field` annotation. */
  datatype Index = Tokenized | UnTokenized | No | NoNorms

  /** A declared field: name, type, its `@Field` annotation if present, and
      whether it carries `@Id`. */
  datatype FieldDecl = FieldDecl(name: string, fieldType: JavaType, searchField: Option<Index>, isId: bool)

  /** One class: fully-qualified name, the `index` of its `@Indexed`
      annotation if present, and its declared fields in declaration order. */
  datatype ClassDecl = ClassDecl(name: string, indexed: Option<string>, fields: seq<FieldDecl>)

  /** A class together with its superclasses, nearest first, up to but not
      including java.lang.Object. */
  datatype ClassRef = ClassRef(decl: ClassDecl, superclasses: seq<ClassDecl>) {
    function Chain(): seq<ClassDecl> { [decl] + superclasses }
    function Name(): string { decl.name }
  }

  /** The classes Class.forName can load, by fully-qualified name. */
  type Registry = map<string, ClassRef>

  ghost predicate WellFormedRegistry(reg: Registry) {
    forall n :: n in reg ==> reg[n].Name() == n
  }

  /** Class.forName: the registered class of that name, or ClassNotFound. */
  function ClassForName(reg: Registry, name: string): (r: Result<ClassRef, Error>)
    ensures r.Ok? <==> name in reg
    ensures r.Err? ==> r.error == ClassNotFound(name)
    ensures r.Ok? && WellFormedRegistry(reg) ==> r.value.Name() == name
  {
    if name in reg then Ok(reg[name]) else Err(ClassNotFound(name))
  }

  /** Looking up a registered class by its own name returns that class. */
  lemma ClassForNameOfOwnName(reg: Registry, c: ClassRef)
    requires WellFormedRegistry(reg)
    requires c in reg.Values
    ensures ClassForName(reg, c.Name()) == Ok(c)
  {
    var n :| n in reg && reg[n] == c;
  }

  /** Class.getDeclaredField: the first declared field with that name. */
  function DeclaredField(fields: seq<FieldDecl>, name: string): (r: Option<nat>)
    ensures r.Some? ==> r.value < |fields| && fields[r.value].name == name
    ensures r.Some? ==> forall j :: 0 <= j < r.value ==> fields[j].name != name
    ensures r.None? ==> forall j :: 0 <= j < |fields| ==> fields[j].name != name
  {
    if |fields| == 0 then None
    else if fields[0].name == name then Some(0)
    else match DeclaredField(fields[1..], name)
      case None => None
      case Some(k) => Some(k + 1)
  }

  /** Java forbids two declared fields of one class with the same name. */
  ghost predicate UniqueFieldNames(c: ClassDecl) {
    forall i, j :: 0 <= i < j < |c.fields| ==> c.fields[i].name != c.fields[j].name
  }

  /** String.lastIndexOf(char): the last position of c in s, or -1. */
  function LastIndexOf(s: string, c: char): (r: int)
    ensures -1 <= r < |s|
    ensures r >= 0 ==> s[r] == c
    ensures forall j :: r < j < |s| ==> s[j] != c
  {
    if |s| == 0 then -1
    else if s[|s| - 1] == c then |s| - 1
    else LastIndexOf(s[..|s| - 1], c)
  }

  function ToLowerChar(c: char): char {
    if 'A' <= c <= 'Z' then (c as int + 32) as char else c
  }

  /** String.toLowerCase, on the ASCII letters. */
  function ToLower(s: string): (r: string)
    ensures |r| == |s|
  {
    seq(|s|, i requires 0 <= i < |s| => ToLowerChar(s[i]))
  }

  const LONG_MIN: int := -0x8000_0000_0000_0000
  const LONG_MAX: int := 0x7FFF_FFFF_FFFF_FFFF

  /** Java's `int`. */
  newtype int32 = x: int | -0x8000_0000 <= x < 0x8000_0000

  /** Two's-complement wrap-around of an unbounded integer into a Java `long`. */
  function WrapLong(x: int): (r: int)
    ensures LONG_MIN <= r <= LONG_MAX
    ensures LONG_MIN <= x <= LONG_MAX ==> r == x
  {
    (x - LONG_MIN) % LONG_RANGE + LONG_MIN
  }

  const LONG_RANGE: int := 0x1_0000_0000_0000_0000

  /** Wrapping an intermediate sum changes nothing about the wrapped total. */
  lemma WrapLongAdd(a: int, b: int)
    ensures WrapLong(WrapLong(a) + b) == WrapLong(a + b)
  {
    var q := (a - LONG_MIN) / LONG_RANGE;
    assert WrapLong(a) + b - LONG_MIN == (a + b - LONG_MIN) - q * LONG_RANGE;
    var x := a + b - LONG_MIN;
    var d, r := x / LONG_RANGE, x % LONG_RANGE;
    assert x - q * LONG_RANGE == (d - q) * LONG_RANGE + r;
  }
}
