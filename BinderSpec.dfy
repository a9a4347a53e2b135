/** What `IonNodeToObjectParser` makes of a linked document, as pure functions: the type each
    node resolves to, the conversion of attribute texts, the assignment of properties, the
    defaults of the properties nothing supplied, and the whole recursive materialization. */
module IonBinderSpec {
  import opened Wrappers
  import opened IonText
  import opened IonModel
  import opened IonSchema
  import opened IonValidator

  /** The instance under construction and the names marked as supplied so far
      (`propertiesWithValue`). */
  datatype Binding = Binding(instance: Value, supplied: seq<Option<string>>)

  // ----- Type resolution -----

  /** The type of the root node: the first declared class named like the node. `First()`
      over no match raises `InvalidOperationException`. */
  function RootType(schema: Schema, node: IonNode): (r: Result<TypeRef>)
    ensures r.Ok? ==> r.value.ClassType? && node.nodeName == Some(r.value.className) &&
                      FindClass(schema.classes, r.value.className).Some?
    ensures r.Err? <==> forall k :: 0 <= k < |schema.classes| ==> node.nodeName != Some(schema.classes[k].name)
    ensures r.Err? ==> r.error == InvalidOperation
  {
    match node.nodeName
    case None => Err(InvalidOperation)
    case Some(n) =>
      match FindClass(schema.classes, n)
      case Some(c) => Ok(ClassType(c.name))
      case None => Err(InvalidOperation)
  }

  /** The position of the first of `types` whose name is `name`. */
  function FirstNamed(types: seq<TypeRef>, name: Option<string>): (r: Option<nat>)
    ensures r.Some? ==> r.value < |types| && Some(TypeName(types[r.value])) == name &&
                        forall j :: 0 <= j < r.value ==> Some(TypeName(types[j])) != name
    ensures r.None? ==> forall k :: 0 <= k < |types| ==> Some(TypeName(types[k])) != name
  {
    if |types| == 0 then None
    else if Some(TypeName(types[0])) == name then Some(0)
    else
      match FirstNamed(types[1..], name)
      case None => None
      case Some(k) => Some(k + 1)
  }

  /** `GetTypeByNodeName`: under a list type, the element type when the node is named like it,
      else the first type deriving from it that is; under any other type, the type of the
      property named like the node. A name several properties carry is an ambiguous match;
      every other failure is an invalid node at the node's line. */
  function GetTypeByNodeName(schema: Schema, typeToSearch: Option<TypeRef>, node: IonNode): (r: Result<TypeRef>)
    ensures r.Err? ==> r.error == InvalidNode(node.documentLine) || r.error == AmbiguousMatch
    ensures r == Err(AmbiguousMatch) <==>
              typeToSearch.Some? && !typeToSearch.value.ListType? && node.nodeName.Some? &&
              Ambiguous(PropertiesOf(schema, typeToSearch.value), node.nodeName.value)
    ensures typeToSearch.None? ==> r.Err?
    ensures typeToSearch.Some? && typeToSearch.value.ListType? ==>
              var e := typeToSearch.value.element;
              (Some(TypeName(e)) == node.nodeName ==> r == Ok(e)) &&
              (r.Ok? ==> Some(TypeName(r.value)) == node.nodeName &&
                         (r.value == e || r.value in GetInheritingTypes(schema, e))) &&
              (r.Err? <==> Some(TypeName(e)) != node.nodeName &&
                           forall x :: x in GetInheritingTypes(schema, e) ==> Some(TypeName(x)) != node.nodeName)
    ensures typeToSearch.Some? && !typeToSearch.value.ListType? ==>
              (r.Ok? <==> HasProperty(PropertiesOf(schema, typeToSearch.value), node.nodeName) &&
                          !Ambiguous(PropertiesOf(schema, typeToSearch.value), node.nodeName.value)) &&
              (r.Ok? ==> exists k :: 0 <= k < |PropertiesOf(schema, typeToSearch.value)| &&
                           node.nodeName == Some(PropertiesOf(schema, typeToSearch.value)[k].name) &&
                           PropertiesOf(schema, typeToSearch.value)[k].ptype == r.value)
  {
    var line := node.documentLine;
    match typeToSearch
    case None => Err(InvalidNode(line))
    case Some(t) =>
      if t.ListType? then
        if Some(TypeName(t.element)) == node.nodeName then Ok(t.element)
        else
          var inheriting := GetInheritingTypes(schema, t.element);
          match FirstNamed(inheriting, node.nodeName)
          case Some(k) => Ok(inheriting[k])
          case None => Err(InvalidNode(line))
      else
        match node.nodeName
        case None => Err(InvalidNode(line))
        case Some(n) =>
          match GetProperty(PropertiesOf(schema, t), n)
          case Err(e) => Err(e)
          case Ok(Some(p)) => Ok(p.ptype)
          case Ok(None) => Err(InvalidNode(line))
  }

  /** The type `Instantiate` gives node `i` when its parent has type `parentType`. */
  function ResolveType(schema: Schema, doc: seq<IonNode>, i: nat, parentType: Option<TypeRef>): (r: Result<TypeRef>)
    requires i < |doc|
    ensures doc[i].isRootNode ==>
              (r.Ok? ==> r.value.ClassType? && doc[i].nodeName == Some(r.value.className)) &&
              (r.Err? ==> r.error == InvalidOperation)
    ensures !doc[i].isRootNode ==>
              (parentType.None? ==> r == Err(InvalidNode(doc[i].documentLine))) &&
              (r.Err? ==> r.error == InvalidNode(doc[i].documentLine) || r.error == AmbiguousMatch)
  {
    if doc[i].isRootNode then RootType(schema, doc[i]) else GetTypeByNodeName(schema, parentType, doc[i])
  }

  /** `s` holds every class declared with a base class in `s`. */
  predicate ClosedUnderSubclassing(classes: seq<ClassDecl>, s: set<string>) {
    forall j :: 0 <= j < |classes| && classes[j].baseName.Some? && classes[j].baseName.value in s ==>
      classes[j].name in s
  }

  /** A class on the deeper levels below `level` is on the next level or below it. */
  lemma DeeperLevelsSplit(classes: seq<ClassDecl>, level: seq<string>, fuel: nat, y: string)
    requires y in DeeperSubclasses(classes, level, fuel)
    ensures fuel > 0
    ensures y in SubclassesOfAll(classes, level) ||
            y in DeeperSubclasses(classes, SubclassesOfAll(classes, level), fuel - 1)
  {
  }

  /** The deeper levels below classes of a set closed under subclassing stay in that set. */
  lemma {:induction false} DeeperLevelsStayIn(classes: seq<ClassDecl>, level: seq<string>, fuel: nat,
                                              s: set<string>, y: string)
    requires ClosedUnderSubclassing(classes, s)
    requires forall x :: x in level ==> x in s
    requires y in DeeperSubclasses(classes, level, fuel)
    ensures y in s
    decreases fuel
  {
    DeeperLevelsSplit(classes, level, fuel, y);
    var next := SubclassesOfAll(classes, level);
    NextLevelStaysIn(classes, level, s);
    if y !in next {
      DeeperLevelsStayIn(classes, next, fuel - 1, s, y);
    }
  }

  /** The direct subclasses of classes of a set closed under subclassing stay in that set. */
  lemma NextLevelStaysIn(classes: seq<ClassDecl>, level: seq<string>, s: set<string>)
    requires ClosedUnderSubclassing(classes, s)
    requires forall x :: x in level ==> x in s
    ensures forall x :: x in SubclassesOfAll(classes, level) ==> x in s
  {
    forall x | x in SubclassesOfAll(classes, level)
      ensures x in s
    {
      SubclassesDeriveFromOneOf(classes, level, x);
      var i, j :| 0 <= i < |level| && 0 <= j < |classes| &&
                  classes[j].name == x && classes[j].baseName == Some(level[i]);
      assert level[i] in s;
    }
  }

  /** `GetInheritingTypes` finds only classes deriving from `b`: every type it returns is a
      class in every set of names that holds the direct subclasses of `b` and is closed under
      subclassing, the least of which is the set of all classes deriving from `b`. */
  lemma InheritingTypesAreDescendants(schema: Schema, b: string, s: set<string>)
    requires ClosedUnderSubclassing(schema.classes, s)
    requires forall j :: 0 <= j < |schema.classes| && schema.classes[j].baseName == Some(b) ==>
               schema.classes[j].name in s
    ensures forall x :: x in GetInheritingTypes(schema, ClassType(b)) ==> x.ClassType? && x.className in s
  {
    var classes := schema.classes;
    var first := DirectSubclasses(classes, b);
    var all := first + DeeperSubclasses(classes, first, |classes|);
    forall y | y in first
      ensures y in s
    {
      var k :| 0 <= k < |first| && first[k] == y;
      var j :| 0 <= j < |classes| && classes[j].name == first[k] && classes[j].baseName == Some(b);
    }
    forall x | x in GetInheritingTypes(schema, ClassType(b))
      ensures x.ClassType? && x.className in s
    {
      var k :| 0 <= k < |all| && x == ClassType(all[k]);
      if k >= |first| {
        assert all[k] in DeeperSubclasses(classes, first, |classes|);
        DeeperLevelsStayIn(classes, first, |classes|, s, all[k]);
      } else {
        assert all[k] in first;
      }
    }
  }

  /** A class declared with base `b` is among the direct subclasses of `b`. */
  lemma {:induction false} DirectSubclassesComplete(classes: seq<ClassDecl>, b: string, j: nat)
    requires j < |classes| && classes[j].baseName == Some(b)
    ensures classes[j].name in DirectSubclasses(classes, b)
    decreases |classes|
  {
    if j > 0 {
      assert classes[1..][j - 1] == classes[j];
      DirectSubclassesComplete(classes[1..], b, j - 1);
    }
  }

  /** A class declared with one of `names` as its base is on the level below `names`. */
  lemma {:induction false} SubclassesOfAllComplete(classes: seq<ClassDecl>, names: seq<string>, i: nat, j: nat)
    requires i < |names| && j < |classes| && classes[j].baseName == Some(names[i])
    ensures classes[j].name in SubclassesOfAll(classes, names)
    decreases |names|
  {
    if i == 0 {
      DirectSubclassesComplete(classes, names[0], j);
    } else {
      assert names[1..][i - 1] == names[i];
      SubclassesOfAllComplete(classes, names[1..], i - 1, j);
    }
  }

  /** Some declaration of class `x` names `b` as its base class. */
  predicate DeclaredWithBase(classes: seq<ClassDecl>, x: string, b: string) {
    exists j :: 0 <= j < |classes| && classes[j].name == x && classes[j].baseName == Some(b)
  }

  /** The base class `BaseOf` finds is the one a declaration of the class names. */
  lemma BaseOfDeclared(schema: Schema, t: TypeRef)
    requires BaseOf(schema, t).Some?
    ensures t.ClassType? && DeclaredWithBase(schema.classes, t.className, BaseOf(schema, t).value)
  {
    var c := FindClass(schema.classes, t.className).value;
    var j :| 0 <= j < |schema.classes| && schema.classes[j] == c;
  }

  /** Each class of `u` is declared with the next one as its base class. */
  predicate BaseLinks(classes: seq<ClassDecl>, u: seq<string>) {
    forall i :: 0 <= i < |u| - 1 ==> DeclaredWithBase(classes, u[i], u[i + 1])
  }

  /** Dropping the last class of a chain of base links leaves a chain of base links. */
  lemma BaseLinksPrefix(classes: seq<ClassDecl>, u: seq<string>)
    requires |u| > 0 && BaseLinks(classes, u)
    ensures BaseLinks(classes, u[..|u| - 1])
  {
    var v := u[..|u| - 1];
    forall i | 0 <= i < |v| - 1
      ensures DeclaredWithBase(classes, v[i], v[i + 1])
    {
      assert v[i] == u[i] && v[i + 1] == u[i + 1];
    }
  }

  /** A class on the level below `level` is on the deeper levels, when levels remain. */
  lemma DeeperLevelsHoldNext(classes: seq<ClassDecl>, level: seq<string>, fuel: nat, x: string)
    requires fuel > 0 && x in SubclassesOfAll(classes, level)
    ensures x in DeeperSubclasses(classes, level, fuel)
  {
  }

  /** A class on the deeper levels below the next level is on the deeper levels below `level`. */
  lemma DeeperLevelsHoldBelow(classes: seq<ClassDecl>, level: seq<string>, fuel: nat,
                              next: seq<string>, f: nat, x: string)
    requires next == SubclassesOfAll(classes, level) && f + 1 == fuel
    requires x in DeeperSubclasses(classes, next, f)
    ensures x in DeeperSubclasses(classes, level, fuel)
  {
    assert |next| > 0;
  }

  /** A chain of base links from `x` (= `u[0]`) that ends on `level` and spans at most `fuel`
      levels: `x` is found on the deeper levels below `level`. */
  lemma {:induction false} DeeperLevelsComplete(classes: seq<ClassDecl>, level: seq<string>, fuel: nat,
                                                u: seq<string>, x: string)
    requires 2 <= |u| <= fuel + 1 && u[0] == x && u[|u| - 1] in level && BaseLinks(classes, u)
    ensures x in DeeperSubclasses(classes, level, fuel)
    decreases fuel
  {
    var next := SubclassesOfAll(classes, level);
    var i :| 0 <= i < |level| && level[i] == u[|u| - 1];
    assert DeclaredWithBase(classes, u[|u| - 2], u[|u| - 1]);
    var j :| 0 <= j < |classes| && classes[j].name == u[|u| - 2] && classes[j].baseName == Some(u[|u| - 1]);
    SubclassesOfAllComplete(classes, level, i, j);
    if |u| == 2 {
      DeeperLevelsHoldNext(classes, level, fuel, x);
    } else {
      var v := u[..|u| - 1];
      BaseLinksPrefix(classes, u);
      assert v[0] == x && v[|v| - 1] == classes[j].name;
      var f: nat := fuel - 1;
      DeeperLevelsComplete(classes, next, f, v, x);
      DeeperLevelsHoldBelow(classes, level, fuel, next, f, x);
    }
  }

  /** `GetInheritingTypes` finds every class deriving from `b` at any depth: a class that has
      `b` among its base types (`GetAllBaseTypes`) is returned. */
  lemma InheritingTypesComplete(schema: Schema, b: string, x: string, k: nat)
    requires k < |GetAllBaseTypes(schema, ClassType(x))|
    requires GetAllBaseTypes(schema, ClassType(x))[k] == ClassType(b)
    ensures ClassType(x) in GetInheritingTypes(schema, ClassType(b))
  {
    var classes := schema.classes;
    var c := GetAllBaseTypes(schema, ClassType(x));
    var u := [x] + seq(k + 1, i requires 0 <= i <= k => c[i].className);
    forall i | 0 <= i < |u| - 1
      ensures DeclaredWithBase(classes, u[i], u[i + 1])
    {
      if i == 0 {
        BaseOfDeclared(schema, ClassType(x));
      } else {
        BaseOfDeclared(schema, c[i - 1]);
      }
    }
    assert BaseLinks(classes, u);
    var first := DirectSubclasses(classes, b);
    var all := first + DeeperSubclasses(classes, first, |classes|);
    assert DeclaredWithBase(classes, u[|u| - 2], b);
    var j :| 0 <= j < |classes| && classes[j].name == u[|u| - 2] && classes[j].baseName == Some(b);
    DirectSubclassesComplete(classes, b, j);
    if k == 0 {
      assert x in all;
    } else {
      var v := u[..|u| - 1];
      BaseLinksPrefix(classes, u);
      assert v[0] == x;
      DeeperLevelsComplete(classes, first, |classes|, v, x);
      assert x in all;
    }
    var m :| 0 <= m < |all| && all[m] == x;
    assert GetInheritingTypes(schema, ClassType(b))[m] == ClassType(x);
  }

  // ----- Instances and values -----

  /** The fields a class's constructor initializes. */
  function InitialFields(props: seq<Property>): (r: map<string, Value>)
    ensures forall n :: n in r <==> exists k :: 0 <= k < |props| && props[k].name == n && props[k].initial.Some?
  {
    if |props| == 0 then map[]
    else
      var rest := InitialFields(props[1..]);
      assert forall k :: 1 <= k < |props| ==> props[k] == props[1..][k - 1];
      if props[0].initial.Some? then rest[props[0].name := props[0].initial.value] else rest
  }

  /** `Activator.CreateInstance` of a node's type: a fresh object of a class, with the fields its
      constructor initializes, or an empty list. A scalar type yields no instance here. */
  function CreateInstance(schema: Schema, t: TypeRef, line: int): (r: Result<Value>)
    ensures t.ClassType? ==> r.Ok? && r.value.ObjV? && r.value.className == t.className &&
                             r.value.fields.Keys == InitialFields(PropertiesOf(schema, t)).Keys
    ensures t.ListType? ==> r == Ok(ListV([]))
    ensures !t.ClassType? && !t.ListType? ==> r == Err(InvalidNode(line))
  {
    match t
    case ClassType(n) => Ok(ObjV(n, InitialFields(PropertiesOf(schema, t))))
    case ListType(_) => Ok(ListV([]))
    case _ => Err(InvalidNode(line))
  }

  /** `ParseStringValue`: the conversion of an attribute's text to a property's type. Strings
      pass through, booleans and enumeration members are read by name, and any other type
      converts through its own `Parse` method. Every refusal is an attribute-cast error at the
      node's line, except an exception the `Parse` method itself throws. */
  function ParseStringValue(schema: Schema, value: string, t: TypeRef, line: int): (r: Result<Value>)
    ensures t == StringType ==> r == Ok(StrV(value))
    ensures t.BoolType? ==> (r.Ok? ==> r.value.BoolV?) && (r.Err? ==> r.error == AttributeCast(line))
    ensures t.EnumType? ==> (r.Ok? <==> value in t.members) &&
                            (r.Ok? ==> r.value == EnumV(t.enumName, value)) &&
                            (r.Err? ==> r.error == AttributeCast(line))
    ensures t.ScalarType? || t.ClassType? || t.ListType? ==>
              (r.Ok? <==> schema.parseScalar(TypeName(t), value).Parsed?) &&
              (r.Ok? ==> r.value == schema.parseScalar(TypeName(t), value).v) &&
              (r.Err? ==> r.error == (if schema.parseScalar(TypeName(t), value).ParseThrew?
                                      then TargetInvocation else AttributeCast(line)))
  {
    match t
    case StringType => Ok(StrV(value))
    case BoolType(_) =>
      if ToUpper(value) == "TRUE" then Ok(BoolV(true))
      else if ToUpper(value) == "FALSE" then Ok(BoolV(false))
      else Err(AttributeCast(line))
    case EnumType(n, members, _) =>
      if value in members then Ok(EnumV(n, value)) else Err(AttributeCast(line))
    case _ =>
      match schema.parseScalar(TypeName(t), value)
      case Parsed(v) => Ok(v)
      case NoParseMethod => Err(AttributeCast(line))
      case ParsedNull => Err(AttributeCast(line))
      case ParseThrew => Err(TargetInvocation)
  }

  /** `value` spells the upper-case ASCII word `word`, each letter in either case. */
  predicate SpellsIgnoringCase(value: string, word: string) {
    |value| == |word| &&
    forall k :: 0 <= k < |word| ==> value[k] == word[k] || value[k] as int == word[k] as int + 32
  }

  lemma {:induction false} UpperMatchesWord(value: string, word: string)
    requires forall k :: 0 <= k < |word| ==> 'A' <= word[k] <= 'Z'
    ensures ToUpper(value) == word <==> SpellsIgnoringCase(value, word)
  {
    if SpellsIgnoringCase(value, word) {
      assert forall k :: 0 <= k < |word| ==> ToUpper(value)[k] == word[k];
    }
    if ToUpper(value) == word {
      forall k | 0 <= k < |word|
        ensures value[k] == word[k] || value[k] as int == word[k] as int + 32
      {
        assert ToUpper(value)[k] == word[k];
      }
    }
  }

  /** A boolean property accepts `true` and `false` in any mix of letter cases, and nothing else. */
  lemma BoolIgnoresCase(schema: Schema, value: string, nullable: bool, line: int)
    ensures ParseStringValue(schema, value, BoolType(nullable), line) == Ok(BoolV(true)) <==>
              SpellsIgnoringCase(value, "TRUE")
    ensures ParseStringValue(schema, value, BoolType(nullable), line) == Ok(BoolV(false)) <==>
              SpellsIgnoringCase(value, "FALSE")
    ensures ParseStringValue(schema, value, BoolType(nullable), line).Err? <==>
              !SpellsIgnoringCase(value, "TRUE") && !SpellsIgnoringCase(value, "FALSE")
  {
    UpperMatchesWord(value, "TRUE");
    UpperMatchesWord(value, "FALSE");
  }

  /** `SetPropertyValue`: assigns a writable property; a read-only list property already holding
      a list receives the value's items at its end; a name several properties carry is an
      ambiguous match; anything else is a parser error. No other field changes. */
  function SetPropertyValue(schema: Schema, t: TypeRef, inst: Value, propName: string, value: Value): (r: Result<Value>)
    ensures r.Err? ==> r.error == Parser || r.error == AmbiguousMatch
    ensures r == Err(AmbiguousMatch) <==> Ambiguous(PropertiesOf(schema, t), propName)
    ensures r.Ok? ==> inst.ObjV? && r.value.ObjV? && r.value.className == inst.className &&
                      propName in r.value.fields &&
                      forall n :: n != propName ==>
                        (n in r.value.fields <==> n in inst.fields) &&
                        (n in inst.fields ==> r.value.fields[n] == inst.fields[n])
    ensures r.Ok? <==> !Ambiguous(PropertiesOf(schema, t), propName) &&
                       inst.ObjV? && FindProperty(PropertiesOf(schema, t), propName).Some? &&
                       (FindProperty(PropertiesOf(schema, t), propName).value.canWrite ||
                        (FindProperty(PropertiesOf(schema, t), propName).value.ptype.ListType? &&
                         value.ListV? && propName in inst.fields && inst.fields[propName].ListV?))
    ensures r.Ok? && FindProperty(PropertiesOf(schema, t), propName).value.canWrite ==>
              r.value.fields[propName] == value
    ensures r.Ok? && !FindProperty(PropertiesOf(schema, t), propName).value.canWrite ==>
              r.value.fields[propName] == ListV(inst.fields[propName].items + value.items)
  {
    var found :- GetProperty(PropertiesOf(schema, t), propName);
    match found
    case None => Err(Parser)
    case Some(p) =>
      match inst
      case ObjV(cn, fields) =>
        if p.canWrite then Ok(ObjV(cn, fields[propName := value]))
        else if p.ptype.ListType? && value.ListV? && propName in fields && fields[propName].ListV? then
          Ok(ObjV(cn, fields[propName := ListV(fields[propName].items + value.items)]))
        else Err(Parser)
      case _ => Err(Parser)
  }

  /** No two properties share a name (what a compiled class guarantees). */
  predicate UniqueNames(props: seq<Property>) {
    forall i, j :: 0 <= i < j < |props| ==> props[i].name != props[j].name
  }

  lemma {:induction false} FindPropertyUnique(props: seq<Property>, k: nat)
    requires UniqueNames(props) && k < |props|
    ensures FindProperty(props, props[k].name) == Some(props[k])
  {
    if k > 0 {
      assert props[0].name != props[k].name;
      assert props[1..][k - 1] == props[k];
      FindPropertyUnique(props[1..], k - 1);
    }
  }

  /** `GetProperty` finds the first property with the name. */
  lemma {:induction false} FindPropertyFirst(props: seq<Property>, n: string, j: nat)
    requires j < |props| && props[j].name == n
    requires forall m :: 0 <= m < j ==> props[m].name != n
    ensures FindProperty(props, n) == Some(props[j])
  {
    if j > 0 {
      assert props[0].name != n;
      assert props[1..][j - 1] == props[j];
      assert forall m :: 0 <= m < j - 1 ==> props[1..][m] == props[m + 1];
      FindPropertyFirst(props[1..], n, j - 1);
    }
  }

  /** The first property named `name`, when there is a name. */
  function MatchingProperty(props: seq<Property>, name: Option<string>): (r: Option<Property>)
    ensures r.Some? ==> r.value in props && name == Some(r.value.name)
    ensures r.None? <==> !HasProperty(props, name)
  {
    if name.None? then None else FindProperty(props, name.value)
  }

  // ----- Attributes -----

  /** The attribute loop of `Instantiate` from attribute `k` on: each attribute named like a
      property marks it supplied, is converted to the property's type and assigned. */
  function BindAttributes(schema: Schema, t: TypeRef, attrs: seq<IonAttribute>, k: nat, b: Binding, line: int)
    : (r: Result<Binding>)
    requires k <= |attrs|
    ensures r.Ok? && b.instance.ObjV? ==>
              r.value.instance.ObjV? && r.value.instance.className == b.instance.className &&
              forall n :: (forall m :: k <= m < |attrs| ==> attrs[m].name != Some(n)) ==>
                (n in r.value.instance.fields <==> n in b.instance.fields) &&
                (n in b.instance.fields ==> r.value.instance.fields[n] == b.instance.fields[n])
    ensures r.Ok? && !HasAnyProperty(schema, t) ==> r.value.instance == b.instance
    decreases |attrs| - k
  {
    if k == |attrs| then Ok(b)
    else
      match MatchingProperty(PropertiesOf(schema, t), attrs[k].name)
      case None => BindAttributes(schema, t, attrs, k + 1, b, line)
      case Some(p) =>
        var v :- ParseStringValue(schema, attrs[k].value, p.ptype, line);
        var inst :- SetPropertyValue(schema, t, b.instance, p.name, v);
        BindAttributes(schema, t, attrs, k + 1, Binding(inst, b.supplied + [Some(p.name)]), line)
  }

  /** Whether the type has any property at all. */
  predicate HasAnyProperty(schema: Schema, t: TypeRef) {
    |PropertiesOf(schema, t)| > 0
  }

  /** After the attribute loop, a name is supplied exactly when it was before, or some
      attribute carries it and a property of the type has it. */
  lemma {:induction false} AttributesMarkSupplied(schema: Schema, t: TypeRef, attrs: seq<IonAttribute>, k: nat,
                                                  b: Binding, line: int)
    requires k <= |attrs|
    requires BindAttributes(schema, t, attrs, k, b, line).Ok?
    ensures forall x :: x in BindAttributes(schema, t, attrs, k, b, line).value.supplied <==>
              x in b.supplied ||
              (HasProperty(PropertiesOf(schema, t), x) && exists m :: k <= m < |attrs| && attrs[m].name == x)
    decreases |attrs| - k
  {
    if k < |attrs| {
      var props := PropertiesOf(schema, t);
      match MatchingProperty(props, attrs[k].name)
      case None =>
        AttributesMarkSupplied(schema, t, attrs, k + 1, b, line);
      case Some(p) =>
        var v := ParseStringValue(schema, attrs[k].value, p.ptype, line).value;
        var inst := SetPropertyValue(schema, t, b.instance, p.name, v).value;
        AttributesMarkSupplied(schema, t, attrs, k + 1, Binding(inst, b.supplied + [Some(p.name)]), line);
    }
  }

  /** An attribute whose name no later attribute repeats, naming a writable property, leaves
      that property holding the attribute's converted text. */
  lemma {:induction false} AttributeAssigned(schema: Schema, t: TypeRef, attrs: seq<IonAttribute>, k: nat,
                                             b: Binding, line: int, m: nat)
    requires k <= m < |attrs|
    requires b.instance.ObjV? && UniqueNames(PropertiesOf(schema, t))
    requires BindAttributes(schema, t, attrs, k, b, line).Ok?
    requires MatchingProperty(PropertiesOf(schema, t), attrs[m].name).Some?
    requires MatchingProperty(PropertiesOf(schema, t), attrs[m].name).value.canWrite
    requires forall j :: m < j < |attrs| ==> attrs[j].name != attrs[m].name
    ensures var p := MatchingProperty(PropertiesOf(schema, t), attrs[m].name).value;
            var r := BindAttributes(schema, t, attrs, k, b, line).value.instance;
            p.name in r.fields &&
            Ok(r.fields[p.name]) == ParseStringValue(schema, attrs[m].value, p.ptype, line)
    decreases |attrs| - k
  {
    var props := PropertiesOf(schema, t);
    var p := MatchingProperty(props, attrs[k].name);
    if k < m {
      match p
      case None =>
        AttributeAssigned(schema, t, attrs, k + 1, b, line, m);
      case Some(q) =>
        var v := ParseStringValue(schema, attrs[k].value, q.ptype, line).value;
        var inst := SetPropertyValue(schema, t, b.instance, q.name, v).value;
        AttributeAssigned(schema, t, attrs, k + 1, Binding(inst, b.supplied + [Some(q.name)]), line, m);
    } else {
      var q := p.value;
      var k' :| 0 <= k' < |props| && props[k'] == q;
      FindPropertyUnique(props, k');
      var v := ParseStringValue(schema, attrs[k].value, q.ptype, line).value;
      var inst := SetPropertyValue(schema, t, b.instance, q.name, v).value;
      assert inst.fields[q.name] == v;
      var rest := BindAttributes(schema, t, attrs, k + 1, Binding(inst, b.supplied + [Some(q.name)]), line);
      assert forall j :: k + 1 <= j < |attrs| ==> attrs[j].name != Some(q.name);
    }
  }

  // ----- Children -----

  /** Whether property `p` receives a child named `childName` whose base types are `baseTypes`. */
  predicate ReceivesChild(p: Property, childName: Option<string>, baseTypes: seq<TypeRef>) {
    childName == Some(p.name) || exists m :: 0 <= m < |baseTypes| && TypeName(baseTypes[m]) == p.name
  }

  /** The property loop for one child of a non-list node, from property `j` on: the child is
      assigned to every property named like it or like one of its base types. */
  function AssignChild(schema: Schema, t: TypeRef, props: seq<Property>, j: nat, inst: Value,
                       childName: Option<string>, baseTypes: seq<TypeRef>, child: Value): (r: Result<Value>)
    requires j <= |props|
    ensures r.Ok? && inst.ObjV? ==>
              r.value.ObjV? && r.value.className == inst.className &&
              forall n :: (forall m :: j <= m < |props| ==> props[m].name != n) ==>
                (n in r.value.fields <==> n in inst.fields) &&
                (n in inst.fields ==> r.value.fields[n] == inst.fields[n])
    decreases |props| - j
  {
    if j == |props| then Ok(inst)
    else
      var next :- if ReceivesChild(props[j], childName, baseTypes)
                  then SetPropertyValue(schema, t, inst, props[j].name, child) else Ok(inst);
      AssignChild(schema, t, props, j + 1, next, childName, baseTypes, child)
  }

  /** Every writable property that receives the child holds it afterwards. */
  lemma {:induction false} ChildAssigned(schema: Schema, t: TypeRef, j: nat, inst: Value,
                                         childName: Option<string>, baseTypes: seq<TypeRef>, child: Value, k: nat)
    requires j <= k < |PropertiesOf(schema, t)| && UniqueNames(PropertiesOf(schema, t))
    requires AssignChild(schema, t, PropertiesOf(schema, t), j, inst, childName, baseTypes, child).Ok?
    requires ReceivesChild(PropertiesOf(schema, t)[k], childName, baseTypes) && PropertiesOf(schema, t)[k].canWrite
    ensures var r := AssignChild(schema, t, PropertiesOf(schema, t), j, inst, childName, baseTypes, child).value;
            r.ObjV? && PropertiesOf(schema, t)[k].name in r.fields &&
            r.fields[PropertiesOf(schema, t)[k].name] == child
    decreases |PropertiesOf(schema, t)| - j
  {
    var props := PropertiesOf(schema, t);
    var next := if ReceivesChild(props[j], childName, baseTypes)
                then SetPropertyValue(schema, t, inst, props[j].name, child) else Ok(inst);
    if j < k {
      ChildAssigned(schema, t, j + 1, next.value, childName, baseTypes, child, k);
    } else {
      FindPropertyUnique(props, k);
      assert next.value.fields[props[k].name] == child;
      assert forall m :: k + 1 <= m < |props| ==> props[m].name != props[k].name;
    }
  }

  /** `instance` with `item` added at its end, when it is a list. */
  function AppendItem(instance: Value, item: Value): (r: Value)
    ensures r.ListV? <==> instance.ListV?
    ensures r.ListV? ==> |r.items| == |instance.items| + 1 && r.items[..|instance.items|] == instance.items &&
                         r.items[|instance.items|] == item
    ensures !instance.ListV? ==> r == instance
  {
    if instance.ListV? then ListV(instance.items + [item]) else instance
  }

  /** The child loop of `Instantiate` for node `i` of type `t`, from child `k` on. */
  function BindChildren(schema: Schema, doc: seq<IonNode>, i: nat, t: TypeRef, k: nat, b: Binding): (r: Result<Binding>)
    requires WellLinked(doc) && i < |doc| && k <= |doc[i].children|
    ensures r.Ok? && b.instance.ObjV? ==>
              r.value.instance.ObjV? && r.value.instance.className == b.instance.className
    decreases |doc| - i, 0, |doc[i].children| - k
  {
    if k == |doc[i].children| then Ok(b)
    else
      var c := doc[i].children[k];
      var childType :- GetTypeByNodeName(schema, Some(t), doc[c]);
      var childInstance :- Materialize(schema, doc, c, Some(t));
      var inst :- if t.ListType? then Ok(AppendItem(b.instance, childInstance))
                  else AssignChild(schema, t, PropertiesOf(schema, t), 0, b.instance, doc[c].nodeName,
                                   GetAllBaseTypes(schema, childType), childInstance);
      BindChildren(schema, doc, i, t, k + 1, Binding(inst, b.supplied + [doc[c].nodeName]))
  }

  /** The property loop for one child leaves field `n` as it was when no property from `j` on
      that is named `n` receives the child. */
  lemma {:induction false} AssignChildKeeps(schema: Schema, t: TypeRef, props: seq<Property>, j: nat, inst: Value,
                                            childName: Option<string>, baseTypes: seq<TypeRef>, child: Value,
                                            n: string)
    requires j <= |props| && inst.ObjV?
    requires AssignChild(schema, t, props, j, inst, childName, baseTypes, child).Ok?
    requires forall m :: j <= m < |props| && props[m].name == n ==> !ReceivesChild(props[m], childName, baseTypes)
    ensures var r := AssignChild(schema, t, props, j, inst, childName, baseTypes, child).value;
            r.ObjV? && (n in r.fields <==> n in inst.fields) && (n in inst.fields ==> r.fields[n] == inst.fields[n])
    decreases |props| - j
  {
    if j < |props| {
      var next := if ReceivesChild(props[j], childName, baseTypes)
                  then SetPropertyValue(schema, t, inst, props[j].name, child) else Ok(inst);
      AssignChildKeeps(schema, t, props, j + 1, next.value, childName, baseTypes, child, n);
    }
  }

  /** Whether a child node of a node of type `t` is assigned to the property named `n`: some
      property with that name receives it, given the type the child resolves to. */
  predicate Fills(schema: Schema, t: TypeRef, child: IonNode, n: string) {
    match GetTypeByNodeName(schema, Some(t), child)
    case Err(_) => false
    case Ok(childType) =>
      exists m :: 0 <= m < |PropertiesOf(schema, t)| && PropertiesOf(schema, t)[m].name == n &&
                  ReceivesChild(PropertiesOf(schema, t)[m], child.nodeName, GetAllBaseTypes(schema, childType))
  }

  /** The node names of the nodes at positions `cs`, in order. */
  function NodeNames(doc: seq<IonNode>, cs: seq<nat>): seq<Option<string>>
    requires forall m :: 0 <= m < |cs| ==> cs[m] < |doc|
  {
    seq(|cs|, m requires 0 <= m < |cs| => doc[cs[m]].nodeName)
  }

  lemma NodeNamesStep(doc: seq<IonNode>, cs: seq<nat>, k: nat)
    requires k < |cs| && forall m :: 0 <= m < |cs| ==> cs[m] < |doc|
    ensures NodeNames(doc, cs[k..]) == [doc[cs[k]].nodeName] + NodeNames(doc, cs[k + 1..])
    ensures forall pre: seq<Option<string>> ::
              (pre + [doc[cs[k]].nodeName]) + NodeNames(doc, cs[k + 1..]) == pre + NodeNames(doc, cs[k..])
  {
  }

  /** One turn of the child loop: the loop goes on from the next child with that child's node
      name marked supplied. */
  lemma BindChildrenStep(schema: Schema, doc: seq<IonNode>, i: nat, t: TypeRef, k: nat, b: Binding)
    returns (b': Binding)
    requires WellLinked(doc) && i < |doc| && k < |doc[i].children|
    requires BindChildren(schema, doc, i, t, k, b).Ok?
    ensures b'.supplied == b.supplied + [doc[doc[i].children[k]].nodeName]
    ensures BindChildren(schema, doc, i, t, k, b) == BindChildren(schema, doc, i, t, k + 1, b')
  {
    var c := doc[i].children[k];
    var childType := GetTypeByNodeName(schema, Some(t), doc[c]).value;
    var childInstance := Materialize(schema, doc, c, Some(t)).value;
    var inst;
    if t.ListType? {
      inst := AppendItem(b.instance, childInstance);
    } else {
      inst := AssignChild(schema, t, PropertiesOf(schema, t), 0, b.instance, doc[c].nodeName,
                          GetAllBaseTypes(schema, childType), childInstance).value;
    }
    b' := Binding(inst, b.supplied + [doc[c].nodeName]);
  }

  /** The child loop marks every child's node name supplied, in document order, after the names
      supplied before it. */
  lemma {:induction false} ChildrenMarkSupplied(schema: Schema, doc: seq<IonNode>, i: nat, t: TypeRef, k: nat, b: Binding)
    requires WellLinked(doc) && i < |doc| && k <= |doc[i].children|
    requires BindChildren(schema, doc, i, t, k, b).Ok?
    ensures BindChildren(schema, doc, i, t, k, b).value.supplied == b.supplied + NodeNames(doc, doc[i].children[k..])
    decreases |doc[i].children| - k
  {
    if k < |doc[i].children| {
      var b' := BindChildrenStep(schema, doc, i, t, k, b);
      ChildrenMarkSupplied(schema, doc, i, t, k + 1, b');
      NodeNamesStep(doc, doc[i].children, k);
    } else {
      assert doc[i].children[k..] == [];
    }
  }

  /** For a node that is no list, the child loop leaves field `n` as it was when no child from
      `k` on fills a property named `n`. */
  lemma {:induction false} ChildrenKeep(schema: Schema, doc: seq<IonNode>, i: nat, t: TypeRef, k: nat, b: Binding,
                                        n: string)
    requires WellLinked(doc) && i < |doc| && k <= |doc[i].children|
    requires !t.ListType? && b.instance.ObjV?
    requires BindChildren(schema, doc, i, t, k, b).Ok?
    requires forall m :: k <= m < |doc[i].children| ==> !Fills(schema, t, doc[doc[i].children[m]], n)
    ensures var r := BindChildren(schema, doc, i, t, k, b).value.instance;
            r.ObjV? && (n in r.fields <==> n in b.instance.fields) &&
            (n in b.instance.fields ==> r.fields[n] == b.instance.fields[n])
    decreases |doc[i].children| - k
  {
    if k < |doc[i].children| {
      var c := doc[i].children[k];
      var childType := GetTypeByNodeName(schema, Some(t), doc[c]).value;
      var childInstance := Materialize(schema, doc, c, Some(t)).value;
      var props := PropertiesOf(schema, t);
      var baseTypes := GetAllBaseTypes(schema, childType);
      assert !Fills(schema, t, doc[c], n);
      AssignChildKeeps(schema, t, props, 0, b.instance, doc[c].nodeName, baseTypes, childInstance, n);
      var inst := AssignChild(schema, t, props, 0, b.instance, doc[c].nodeName, baseTypes, childInstance).value;
      var b' := Binding(inst, b.supplied + [doc[c].nodeName]);
      assert BindChildren(schema, doc, i, t, k, b) == BindChildren(schema, doc, i, t, k + 1, b');
      ChildrenKeep(schema, doc, i, t, k + 1, b', n);
    }
  }

  /** For a node that is no list, a writable property that child `m` fills and no later child
      fills holds that child's instance after the child loop. */
  lemma {:induction false} ChildFilled(schema: Schema, doc: seq<IonNode>, i: nat, t: TypeRef, k: nat, b: Binding,
                                       m: nat, q: nat)
    requires WellLinked(doc) && i < |doc| && k <= m < |doc[i].children|
    requires !t.ListType? && b.instance.ObjV?
    requires q < |PropertiesOf(schema, t)| && UniqueNames(PropertiesOf(schema, t)) && PropertiesOf(schema, t)[q].canWrite
    requires BindChildren(schema, doc, i, t, k, b).Ok?
    requires Fills(schema, t, doc[doc[i].children[m]], PropertiesOf(schema, t)[q].name)
    requires forall m' :: m < m' < |doc[i].children| ==>
               !Fills(schema, t, doc[doc[i].children[m']], PropertiesOf(schema, t)[q].name)
    ensures var r := BindChildren(schema, doc, i, t, k, b).value.instance;
            var c := doc[i].children[m];
            r.ObjV? && PropertiesOf(schema, t)[q].name in r.fields &&
            Materialize(schema, doc, c, Some(t)) == Ok(r.fields[PropertiesOf(schema, t)[q].name])
    decreases |doc[i].children| - k
  {
    var c := doc[i].children[k];
    var childType := GetTypeByNodeName(schema, Some(t), doc[c]).value;
    var childInstance := Materialize(schema, doc, c, Some(t)).value;
    var props := PropertiesOf(schema, t);
    var baseTypes := GetAllBaseTypes(schema, childType);
    var inst := AssignChild(schema, t, props, 0, b.instance, doc[c].nodeName, baseTypes, childInstance).value;
    var b' := Binding(inst, b.supplied + [doc[c].nodeName]);
    assert BindChildren(schema, doc, i, t, k, b) == BindChildren(schema, doc, i, t, k + 1, b');
    if k < m {
      ChildFilled(schema, doc, i, t, k + 1, b', m, q);
    } else {
      var w :| 0 <= w < |props| && props[w].name == props[q].name &&
               ReceivesChild(props[w], doc[c].nodeName, baseTypes);
      assert w == q;
      ChildAssigned(schema, t, 0, b.instance, doc[c].nodeName, baseTypes, childInstance, q);
      ChildrenKeep(schema, doc, i, t, k + 1, b', props[q].name);
    }
  }

  // ----- Defaults -----

  /** What the default loop does with property `p`: nothing when it was supplied, an empty list
      for a list property, its declared default (`GetPropertyDefaultValue`) otherwise. */
  function DefaultStep(schema: Schema, t: TypeRef, p: Property, supplied: seq<Option<string>>, inst: Value)
    : (r: Result<Value>)
    ensures Some(p.name) in supplied ==> r == Ok(inst)
  {
    if Some(p.name) in supplied then Ok(inst)
    else if p.ptype.ListType? then SetPropertyValue(schema, t, inst, p.name, ListV([]))
    else if p.defaultValue.Some? then SetPropertyValue(schema, t, inst, p.name, p.defaultValue.value)
    else Ok(inst)
  }

  /** The default loop of `Instantiate` from property `j` on. */
  function ApplyDefaults(schema: Schema, t: TypeRef, props: seq<Property>, j: nat,
                         supplied: seq<Option<string>>, inst: Value): (r: Result<Value>)
    requires j <= |props|
    ensures r.Ok? && inst.ObjV? ==>
              r.value.ObjV? && r.value.className == inst.className &&
              forall n :: (forall m :: j <= m < |props| ==> props[m].name != n) ==>
                (n in r.value.fields <==> n in inst.fields) &&
                (n in inst.fields ==> r.value.fields[n] == inst.fields[n])
    ensures j == |props| ==> r == Ok(inst)
    decreases |props| - j
  {
    if j == |props| then Ok(inst)
    else
      var next :- DefaultStep(schema, t, props[j], supplied, inst);
      ApplyDefaults(schema, t, props, j + 1, supplied, next)
  }

  /** The effect of the default step on a property of a class whose property names are unique. */
  lemma DefaultStepEffect(schema: Schema, t: TypeRef, supplied: seq<Option<string>>, inst: Value, k: nat)
    requires k < |PropertiesOf(schema, t)| && UniqueNames(PropertiesOf(schema, t)) && inst.ObjV?
    requires DefaultStep(schema, t, PropertiesOf(schema, t)[k], supplied, inst).Ok?
    ensures var p := PropertiesOf(schema, t)[k];
            var r := DefaultStep(schema, t, p, supplied, inst).value;
            r.ObjV? &&
            (Some(p.name) !in supplied && p.canWrite && p.ptype.ListType? ==>
               p.name in r.fields && r.fields[p.name] == ListV([])) &&
            (Some(p.name) !in supplied && p.canWrite && !p.ptype.ListType? && p.defaultValue.Some? ==>
               p.name in r.fields && r.fields[p.name] == p.defaultValue.value) &&
            (Some(p.name) !in supplied && !p.canWrite && p.ptype.ListType? ==>
               p.name in r.fields && r.fields[p.name] == inst.fields[p.name])
  {
    FindPropertyUnique(PropertiesOf(schema, t), k);
  }

  /** After the default loop, an unsupplied writable list property is an empty list and an
      unsupplied writable property with a declared default holds it. */
  lemma {:induction false} DefaultsApplied(schema: Schema, t: TypeRef, j: nat, supplied: seq<Option<string>>,
                                           inst: Value, k: nat)
    requires j <= k < |PropertiesOf(schema, t)| && UniqueNames(PropertiesOf(schema, t)) && inst.ObjV?
    requires ApplyDefaults(schema, t, PropertiesOf(schema, t), j, supplied, inst).Ok?
    ensures var p := PropertiesOf(schema, t)[k];
            var r := ApplyDefaults(schema, t, PropertiesOf(schema, t), j, supplied, inst).value;
            r.ObjV? &&
            (Some(p.name) !in supplied && p.canWrite && p.ptype.ListType? ==>
               p.name in r.fields && r.fields[p.name] == ListV([])) &&
            (Some(p.name) !in supplied && p.canWrite && !p.ptype.ListType? && p.defaultValue.Some? ==>
               p.name in r.fields && r.fields[p.name] == p.defaultValue.value)
    decreases |PropertiesOf(schema, t)| - j
  {
    var props := PropertiesOf(schema, t);
    var next := DefaultStep(schema, t, props[j], supplied, inst).value;
    if j < k {
      DefaultsApplied(schema, t, j + 1, supplied, next, k);
    } else {
      DefaultStepEffect(schema, t, supplied, inst, k);
      assert forall m :: k + 1 <= m < |props| ==> props[m].name != props[k].name;
    }
  }

  /** The default step for property `p` leaves field `n` as it was when `n` is another name, a
      supplied one, the name of `p` when `p` is a read-only list, or the name of `p` when `p` is
      no list and declares no default. */
  lemma DefaultStepKeeps(schema: Schema, t: TypeRef, p: Property, supplied: seq<Option<string>>, inst: Value, n: string)
    requires inst.ObjV? && DefaultStep(schema, t, p, supplied, inst).Ok?
    requires p.name != n || Some(n) in supplied ||
             (!p.canWrite && p.ptype.ListType? && FindProperty(PropertiesOf(schema, t), n) == Some(p)) ||
             (!p.ptype.ListType? && p.defaultValue.None?)
    ensures var r := DefaultStep(schema, t, p, supplied, inst).value;
            r.ObjV? && (n in r.fields <==> n in inst.fields) && (n in inst.fields ==> r.fields[n] == inst.fields[n])
  {
  }

  /** The default loop leaves as they were a supplied property, an unsupplied read-only list (to
      which it appends an empty list), and an unsupplied property that is no list and declares
      no default. */
  lemma {:induction false} DefaultsKeep(schema: Schema, t: TypeRef, j: nat, supplied: seq<Option<string>>,
                                        inst: Value, k: nat)
    requires j <= |PropertiesOf(schema, t)| && k < |PropertiesOf(schema, t)|
    requires UniqueNames(PropertiesOf(schema, t)) && inst.ObjV?
    requires ApplyDefaults(schema, t, PropertiesOf(schema, t), j, supplied, inst).Ok?
    requires Some(PropertiesOf(schema, t)[k].name) in supplied ||
             (!PropertiesOf(schema, t)[k].canWrite && PropertiesOf(schema, t)[k].ptype.ListType?) ||
             (!PropertiesOf(schema, t)[k].ptype.ListType? && PropertiesOf(schema, t)[k].defaultValue.None?)
    ensures var n := PropertiesOf(schema, t)[k].name;
            var r := ApplyDefaults(schema, t, PropertiesOf(schema, t), j, supplied, inst).value;
            r.ObjV? && (n in r.fields <==> n in inst.fields) && (n in inst.fields ==> r.fields[n] == inst.fields[n])
    decreases |PropertiesOf(schema, t)| - j
  {
    var props := PropertiesOf(schema, t);
    if j < |props| {
      var n := props[k].name;
      var next := DefaultStep(schema, t, props[j], supplied, inst).value;
      assert ApplyDefaults(schema, t, props, j, supplied, inst) == ApplyDefaults(schema, t, props, j + 1, supplied, next);
      DefaultsKeep(schema, t, j + 1, supplied, next, k);
      if j == k {
        FindPropertyUnique(props, k);
      } else {
        assert props[j].name != n;
      }
      DefaultStepKeeps(schema, t, props[j], supplied, inst, n);
    }
  }

  // ----- The whole node -----

  /** `Instantiate`: resolve the node's type, validate the node against it, create the instance,
      bind the attributes, then the children, then the defaults. */
  function Materialize(schema: Schema, doc: seq<IonNode>, i: nat, parentType: Option<TypeRef>): (r: Result<Value>)
    requires WellLinked(doc) && i < |doc|
    ensures r.Ok? ==> ResolveType(schema, doc, i, parentType).Ok? &&
                      CheckNode(schema, doc, i, ResolveType(schema, doc, i, parentType).value) == Pass
    decreases |doc| - i, 1
  {
    var t :- ResolveType(schema, doc, i, parentType);
    var check := CheckNode(schema, doc, i, t);
    if check.Fail? then Err(check.error)
    else
      var line := doc[i].documentLine;
      var inst :- CreateInstance(schema, t, line);
      var attributed :- BindAttributes(schema, t, doc[i].attributes, 0, Binding(inst, []), line);
      var linked :- BindChildren(schema, doc, i, t, 0, attributed);
      ApplyDefaults(schema, t, PropertiesOf(schema, t), 0, linked.supplied, linked.instance)
  }

  /** Validation comes before the instance: once the node's type is known, a failing check
      is the node's error whatever would follow, and a materialized node passed its check. */
  lemma ValidatedBeforeCreated(schema: Schema, doc: seq<IonNode>, i: nat, parentType: Option<TypeRef>)
    requires WellLinked(doc) && i < |doc|
    ensures ResolveType(schema, doc, i, parentType).Ok? &&
            CheckNode(schema, doc, i, ResolveType(schema, doc, i, parentType).value).Fail? ==>
              Materialize(schema, doc, i, parentType) ==
                Err(CheckNode(schema, doc, i, ResolveType(schema, doc, i, parentType).value).error)
    ensures Materialize(schema, doc, i, parentType).Ok? ==>
              ResolveType(schema, doc, i, parentType).Ok? &&
              CheckNode(schema, doc, i, ResolveType(schema, doc, i, parentType).value) == Pass
  {
  }

  /** A node resolved to a class materializes as an object of that class; the root node's
      class is the one named like the node. */
  lemma MaterializedClass(schema: Schema, doc: seq<IonNode>, i: nat, parentType: Option<TypeRef>)
    requires WellLinked(doc) && i < |doc|
    requires Materialize(schema, doc, i, parentType).Ok?
    requires ResolveType(schema, doc, i, parentType).value.ClassType?
    ensures Materialize(schema, doc, i, parentType).value ==
              ObjV(ResolveType(schema, doc, i, parentType).value.className,
                   Materialize(schema, doc, i, parentType).value.fields)
    ensures doc[i].isRootNode ==>
              doc[i].nodeName == Some(Materialize(schema, doc, i, parentType).value.className)
  {
    var t := ResolveType(schema, doc, i, parentType).value;
    var line := doc[i].documentLine;
    var inst := CreateInstance(schema, t, line).value;
    var attributed := BindAttributes(schema, t, doc[i].attributes, 0, Binding(inst, []), line).value;
    var linked := BindChildren(schema, doc, i, t, 0, attributed).value;
    assert linked.instance.ObjV? && linked.instance.className == t.className;
  }

  /** The child loop of a list node appends the children's instances in document order. */
  lemma {:induction false} ListChildrenAppended(schema: Schema, doc: seq<IonNode>, i: nat, t: TypeRef, k: nat, b: Binding)
    requires WellLinked(doc) && i < |doc| && k <= |doc[i].children|
    requires t.ListType? && b.instance.ListV? && |b.instance.items| == k
    requires BindChildren(schema, doc, i, t, k, b).Ok?
    ensures var items := BindChildren(schema, doc, i, t, k, b).value.instance;
            items.ListV? && |items.items| == |doc[i].children| &&
            items.items[..k] == b.instance.items &&
            forall m :: k <= m < |doc[i].children| ==>
              Materialize(schema, doc, doc[i].children[m], Some(t)) == Ok(items.items[m])
    decreases |doc[i].children| - k
  {
    if k < |doc[i].children| {
      var c := doc[i].children[k];
      var childInstance := Materialize(schema, doc, c, Some(t)).value;
      var next := Binding(ListV(b.instance.items + [childInstance]), b.supplied + [doc[c].nodeName]);
      assert BindChildren(schema, doc, i, t, k, b) == BindChildren(schema, doc, i, t, k + 1, next);
      ListChildrenAppended(schema, doc, i, t, k + 1, next);
      var items := BindChildren(schema, doc, i, t, k + 1, next).value.instance.items;
      assert items[..k + 1] == b.instance.items + [childInstance];
      assert items[..k] == items[..k + 1][..k];
      assert items[k] == items[..k + 1][k] == childInstance;
      forall m | k <= m < |doc[i].children|
        ensures Materialize(schema, doc, doc[i].children[m], Some(t)) == Ok(items[m])
      {
        if m == k {
          assert Materialize(schema, doc, c, Some(t)) == Ok(childInstance);
        }
      }
    } else {
      assert b.instance.items[..k] == b.instance.items;
    }
  }

  /** A node resolved to a list type materializes as the list of its children's instances, in
      document order. */
  lemma ListNodeHoldsChildren(schema: Schema, doc: seq<IonNode>, i: nat, parentType: Option<TypeRef>)
    requires WellLinked(doc) && i < |doc|
    requires Materialize(schema, doc, i, parentType).Ok?
    requires ResolveType(schema, doc, i, parentType).value.ListType?
    ensures var t := ResolveType(schema, doc, i, parentType).value;
            var v := Materialize(schema, doc, i, parentType).value;
            v.ListV? && |v.items| == |doc[i].children| &&
            forall m :: 0 <= m < |doc[i].children| ==>
              Materialize(schema, doc, doc[i].children[m], Some(t)) == Ok(v.items[m])
  {
    var t := ResolveType(schema, doc, i, parentType).value;
    var line := doc[i].documentLine;
    var attributed := BindAttributes(schema, t, doc[i].attributes, 0, Binding(ListV([]), []), line).value;
    assert attributed.instance == ListV([]);
    ListChildrenAppended(schema, doc, i, t, 0, attributed);
  }
}
