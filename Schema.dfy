/** The schema the reader binds documents to. It stands for what the reader learns through
    reflection over the plugin assembly: the declared classes with their properties, the
    marker attributes (root class, required property, default value), the base class of each
    class, and each scalar type's own `Parse(string)` method. */
module IonSchema {
  import opened Wrappers

  /** The runtime type of a property or of a node. */
  datatype TypeRef =
    | StringType
    | BoolType(nullable: bool)
    | EnumType(enumName: string, members: seq<string>, nullable: bool)
      /** Any other scalar type; its text conversion is its own `Parse` method. */
    | ScalarType(scalarName: string)
    | ClassType(className: string)
      /** `List<element>`: the only types the reader treats as lists. */
    | ListType(element: TypeRef)

  /** A value of the materialized object graph. */
  datatype Value =
    | StrV(s: string)
    | BoolV(b: bool)
    | EnumV(enumName: string, member: string)
    | ScalarV(scalarName: string, text: string)
    | ObjV(className: string, fields: map<string, Value>)
    | ListV(items: seq<Value>)

  /** A declared property: its type, the `IsRequired` marker, the `DefaultValue` marker (if
      any), whether it has a setter, and the value the class's constructor gives it (if any). */
  datatype Property = Property(name: string, ptype: TypeRef, required: bool,
                               defaultValue: Option<Value>, canWrite: bool,
                               initial: Option<Value>)

  /** A declared class: its base class (if any), the `IsRootNode` marker and its properties. */
  datatype ClassDecl = ClassDecl(name: string, baseName: Option<string>, isRoot: bool,
                                 props: seq<Property>)

  /** What a scalar type's `Parse(string)` does with a text. */
  datatype ScalarParse = Parsed(v: Value) | NoParseMethod | ParsedNull | ParseThrew

  /** The classes of the plugin assembly in declaration order, and the scalar parsers. */
  datatype Schema = Schema(classes: seq<ClassDecl>, parseScalar: (string, string) -> ScalarParse)

  /** `Type.Name`. */
  function TypeName(t: TypeRef): string {
    match t
    case StringType => "String"
    case BoolType(nullable) => if nullable then "Nullable`1" else "Boolean"
    case EnumType(n, _, nullable) => if nullable then "Nullable`1" else n
    case ScalarType(n) => n
    case ClassType(n) => n
    case ListType(_) => "List`1"
  }

  /** The first declared class with the given name. */
  function FindClass(classes: seq<ClassDecl>, name: string): (r: Option<ClassDecl>)
    ensures r.Some? ==> r.value in classes && r.value.name == name
    ensures r.None? ==> forall k :: 0 <= k < |classes| ==> classes[k].name != name
  {
    if |classes| == 0 then None
    else if classes[0].name == name then Some(classes[0])
    else FindClass(classes[1..], name)
  }

  /** `Type.GetProperties()`: a class's declared properties; other types have none here. */
  function PropertiesOf(schema: Schema, t: TypeRef): seq<Property> {
    if t.ClassType? then
      match FindClass(schema.classes, t.className)
      case Some(c) => c.props
      case None => []
    else []
  }

  /** `Type.GetProperty(name)`: the first property with that name. */
  function FindProperty(props: seq<Property>, name: string): (r: Option<Property>)
    ensures r.Some? ==> r.value in props && r.value.name == name
    ensures r.None? ==> forall k :: 0 <= k < |props| ==> props[k].name != name
  {
    if |props| == 0 then None
    else if props[0].name == name then Some(props[0])
    else FindProperty(props[1..], name)
  }

  /** More than one property carries `name` (a property redeclared with `new` over an inherited
      one keeps both in `Type.GetProperties()`). */
  predicate Ambiguous(props: seq<Property>, name: string) {
    exists a, b :: 0 <= a < b < |props| && props[a].name == name && props[b].name == name
  }

  /** `Type.GetProperty(name)`: the one property with that name, none when no property has it,
      and an `AmbiguousMatchException` when several have it. */
  function GetProperty(props: seq<Property>, name: string): (r: Result<Option<Property>>)
    ensures r.Err? <==> Ambiguous(props, name)
    ensures r.Err? ==> r.error == AmbiguousMatch
    ensures r.Ok? ==> r.value == FindProperty(props, name)
  {
    if |props| == 0 then Ok(None)
    else
      assert Ambiguous(props, name) ==> props[0].name == name || Ambiguous(props[1..], name) by {
        if Ambiguous(props, name) && props[0].name != name {
          var a, b :| 0 <= a < b < |props| && props[a].name == name && props[b].name == name;
          assert props[1..][a - 1] == props[a] && props[1..][b - 1] == props[b];
        }
      }
      var rest :- GetProperty(props[1..], name);
      if props[0].name != name then Ok(rest)
      else if rest.Some? then
        var b :| 0 <= b < |props[1..]| && props[1..][b] == rest.value;
        assert props[b + 1].name == name;
        Err(AmbiguousMatch)
      else Ok(Some(props[0]))
  }

  /** Whether some property has the given name. */
  predicate HasProperty(props: seq<Property>, name: Option<string>) {
    exists k :: 0 <= k < |props| && name == Some(props[k].name)
  }

  /** The base class of a type, when it is a declared class with a declared base. */
  function BaseOf(schema: Schema, t: TypeRef): Option<string> {
    if t.ClassType? then
      match FindClass(schema.classes, t.className)
      case Some(c) => c.baseName
      case None => None
    else None
  }

  /** The base chain of `t`, nearest first, following at most `fuel` links. */
  function BaseChain(schema: Schema, t: TypeRef, fuel: nat): (r: seq<TypeRef>)
    ensures |r| <= fuel
    ensures |r| > 0 ==> BaseOf(schema, t).Some? && r[0] == ClassType(BaseOf(schema, t).value)
    ensures forall k :: 0 <= k < |r| - 1 ==>
              BaseOf(schema, r[k]).Some? && r[k + 1] == ClassType(BaseOf(schema, r[k]).value)
    ensures |r| < fuel ==> (if |r| == 0 then BaseOf(schema, t) else BaseOf(schema, r[|r| - 1])).None?
    decreases fuel
  {
    match BaseOf(schema, t)
    case None => []
    case Some(b) => if fuel == 0 then [] else [ClassType(b)] + BaseChain(schema, ClassType(b), fuel - 1)
  }

  /** `GetAllBaseTypes`: the base chain of `t`, nearest first. A base chain never repeats a
      class, so it has at most as many links as there are declared classes. */
  function GetAllBaseTypes(schema: Schema, t: TypeRef): (r: seq<TypeRef>)
    ensures |r| <= |schema.classes|
    ensures |r| > 0 <==> BaseOf(schema, t).Some? && |schema.classes| > 0
    ensures |r| > 0 ==> r[0] == ClassType(BaseOf(schema, t).value)
    ensures forall k :: 0 <= k < |r| ==> r[k].ClassType?
    ensures forall k :: 0 <= k < |r| - 1 ==>
              BaseOf(schema, r[k]).Some? && r[k + 1] == ClassType(BaseOf(schema, r[k]).value)
    ensures |r| < |schema.classes| ==> (if |r| == 0 then BaseOf(schema, t) else BaseOf(schema, r[|r| - 1])).None?
  {
    var r := BaseChain(schema, t, |schema.classes|);
    assert forall k :: 0 <= k < |r| ==> r[k].ClassType? by {
      forall k | 0 < k < |r|
        ensures r[k].ClassType?
      {
        assert r[k] == ClassType(BaseOf(schema, r[k - 1]).value);
      }
    }
    r
  }

  /** The names of the classes whose base class is `baseName`, in declaration order. */
  function DirectSubclasses(classes: seq<ClassDecl>, baseName: string): (r: seq<string>)
    ensures forall k :: 0 <= k < |r| ==>
              (exists j :: 0 <= j < |classes| && classes[j].name == r[k] && classes[j].baseName == Some(baseName))
  {
    if |classes| == 0 then []
    else
      var rest := DirectSubclasses(classes[1..], baseName);
      if classes[0].baseName == Some(baseName) then [classes[0].name] + rest else rest
  }

  /** Whether `x` is declared with one of `names` as its base class. */
  predicate DerivesFromOneOf(classes: seq<ClassDecl>, x: string, names: seq<string>) {
    exists i, j :: 0 <= i < |names| && 0 <= j < |classes| &&
      classes[j].name == x && classes[j].baseName == Some(names[i])
  }

  /** The direct subclasses of each of `names`, in order. */
  function SubclassesOfAll(classes: seq<ClassDecl>, names: seq<string>): seq<string> {
    if |names| == 0 then [] else DirectSubclasses(classes, names[0]) + SubclassesOfAll(classes, names[1..])
  }

  /** Each class `SubclassesOfAll` lists is declared with one of `names` as its base class. */
  lemma {:induction false} SubclassesDeriveFromOneOf(classes: seq<ClassDecl>, names: seq<string>, y: string)
    requires y in SubclassesOfAll(classes, names)
    ensures DerivesFromOneOf(classes, y, names)
    decreases |names|
  {
    var first := DirectSubclasses(classes, names[0]);
    if y in first {
      var k :| 0 <= k < |first| && first[k] == y;
      var j :| 0 <= j < |classes| && classes[j].name == first[k] && classes[j].baseName == Some(names[0]);
    } else {
      SubclassesDeriveFromOneOf(classes, names[1..], y);
      var i, j :| 0 <= i < |names| - 1 && 0 <= j < |classes| &&
                  classes[j].name == y && classes[j].baseName == Some(names[1..][i]);
      assert classes[j].baseName == Some(names[i + 1]);
    }
  }

  /** The deeper levels of subclasses below `level`, one level after the other, exploring at
      most `fuel` levels (the local recursive helper of `GetInheritingTypes`). */
  function DeeperSubclasses(classes: seq<ClassDecl>, level: seq<string>, fuel: nat): seq<string>
    decreases fuel
  {
    var next := SubclassesOfAll(classes, level);
    if |next| == 0 || fuel == 0 then [] else next + DeeperSubclasses(classes, next, fuel - 1)
  }

  /** `GetInheritingTypes`: the classes deriving, directly or not, from `t`, level by level. */
  function GetInheritingTypes(schema: Schema, t: TypeRef): (r: seq<TypeRef>)
    ensures !t.ClassType? ==> r == []
    ensures forall k :: 0 <= k < |r| ==> r[k].ClassType?
    ensures t.ClassType? ==>
              |DirectSubclasses(schema.classes, t.className)| <= |r| &&
              forall k :: 0 <= k < |DirectSubclasses(schema.classes, t.className)| ==>
                r[k] == ClassType(DirectSubclasses(schema.classes, t.className)[k])
  {
    if t.ClassType? then
      var first := DirectSubclasses(schema.classes, t.className);
      var all := first + DeeperSubclasses(schema.classes, first, |schema.classes|);
      seq(|all|, k requires 0 <= k < |all| => ClassType(all[k]))
    else []
  }

  /** The root-marked classes, in declaration order. */
  function RootClasses(classes: seq<ClassDecl>): (r: seq<ClassDecl>)
    ensures forall k :: 0 <= k < |r| ==> r[k].isRoot && r[k] in classes
    ensures forall c :: c in classes && c.isRoot ==> c in r
  {
    if |classes| == 0 then []
    else
      var last := classes[|classes| - 1];
      assert forall c :: c in classes ==> c in classes[..|classes| - 1] || c == last;
      RootClasses(classes[..|classes| - 1]) + (if last.isRoot then [last] else [])
  }

  /** The names of the required properties (`GetTypeValidationRules`), in declaration order. */
  function RequiredProperties(props: seq<Property>): (r: seq<string>)
    ensures forall k :: 0 <= k < |props| && props[k].required ==> props[k].name in r
    ensures forall n :: n in r ==> exists k :: 0 <= k < |props| && props[k].required && props[k].name == n
  {
    if |props| == 0 then []
    else
      var last := props[|props| - 1];
      var rest := RequiredProperties(props[..|props| - 1]);
      assert forall k :: 0 <= k < |props| - 1 ==> props[k] == props[..|props| - 1][k];
      rest + (if last.required then [last.name] else [])
  }
}
