/** The document checks: tab-only indentation of node lines, exactly one root class named
    like the requested root, and, for every node before it is instantiated, the four node
    checks in their fixed order (required properties, duplicate attributes, children that are
    properties, attributes that are properties). */
module IonValidator {
  import opened Wrappers
  import opened IonText
  import opened IonModel
  import opened IonSchema

  /** A node line is indented with tab characters only. */
  predicate LeadingWhitespaceOk(line: string) {
    forall k :: 0 <= k < |line| - |TrimStart(line)| ==> line[k] == '\t'
  }

  /** The white space before the first other character of `s` is exactly `s[..y]`. */
  lemma {:induction false} LeadingWhitespaceLength(s: string, y: nat)
    requires y <= |s|
    requires forall k :: 0 <= k < y ==> IsWhiteSpace(s[k])
    requires y == |s| || !IsWhiteSpace(s[y])
    ensures |s| - |TrimStart(s)| == y
  {
    if y > 0 {
      if y < |s| {
        assert s[1..][y - 1] == s[y];
      }
      LeadingWhitespaceLength(s[1..], y - 1);
    }
  }

  /** A white-space character before position `y + 1` lies in the leading white space. */
  lemma {:induction false} InsideLeadingWhitespace(s: string, y: nat)
    requires y < |s|
    requires forall k :: 0 <= k <= y ==> IsWhiteSpace(s[k])
    ensures y < |s| - |TrimStart(s)|
  {
    assert TrimStart(s) == TrimStart(s[1..]);
    if y > 0 {
      InsideLeadingWhitespace(s[1..], y - 1);
    }
  }

  /** Scans the leading white space of a node line and rejects the first character of it
      that is not a tab. */
  method ValidateLeadingWhitespaceNode(nodeLine: string, lineNr: int) returns (r: Outcome)
    ensures r == (if LeadingWhitespaceOk(nodeLine) then Pass else Fail(TextFileParser(lineNr)))
  {
    var y := 0;
    while y < |nodeLine|
      invariant 0 <= y <= |nodeLine|
      invariant forall k :: 0 <= k < y ==> IsWhiteSpace(nodeLine[k]) && nodeLine[k] == '\t'
    {
      var c := nodeLine[y];
      if IsWhiteSpace(c) {
        if c != '\t' {
          InsideLeadingWhitespace(nodeLine, y);
          return Fail(TextFileParser(lineNr));
        }
      } else {
        break;
      }
      y := y + 1;
    }
    LeadingWhitespaceLength(nodeLine, y);
    return Pass;
  }

  /** Counts the root-marked classes, rejecting at once a root class with another name, and
      then rejects any count other than one. */
  method ValidateRootNode(classes: seq<ClassDecl>, rootNodeName: string) returns (r: Outcome)
    ensures r.Pass? <==> |RootClasses(classes)| == 1 && RootClasses(classes)[0].name == rootNodeName
    ensures r.Fail? ==> r.error == InvalidRootNode
  {
    var rootNodeCount := 0;
    var k := 0;
    while k < |classes|
      invariant 0 <= k <= |classes|
      invariant rootNodeCount == |RootClasses(classes[..k])|
      invariant forall j :: 0 <= j < rootNodeCount ==> RootClasses(classes[..k])[j].name == rootNodeName
    {
      var t := classes[k];
      assert classes[..k + 1][..k] == classes[..k];
      if t.isRoot {
        rootNodeCount := rootNodeCount + 1;
        if t.name != rootNodeName {
          assert t in RootClasses(classes);
          return Fail(InvalidRootNode);
        }
      }
      k := k + 1;
    }
    assert classes[..k] == classes;
    if rootNodeCount != 1 {
      return Fail(InvalidRootNode);
    }
    return Pass;
  }

  /** `GetTypeValidationRules`: collects the names of the required properties of `t`. */
  method GetTypeValidationRules(schema: Schema, t: TypeRef) returns (rules: seq<string>)
    ensures rules == RequiredProperties(PropertiesOf(schema, t))
  {
    var props := PropertiesOf(schema, t);
    rules := [];
    var k := 0;
    while k < |props|
      invariant 0 <= k <= |props|
      invariant rules == RequiredProperties(props[..k])
    {
      assert props[..k + 1][..k] == props[..k];
      if props[k].required {
        rules := rules + [props[k].name];
      }
      k := k + 1;
    }
    assert props[..k] == props;
  }

  /** Some attribute of the list has the given name. */
  predicate HasAttributeNamed(attrs: seq<IonAttribute>, name: string) {
    exists k :: 0 <= k < |attrs| && attrs[k].name == Some(name)
  }

  /** Some child of node `i` has the given name. */
  predicate HasChildNamed(doc: seq<IonNode>, i: nat, name: string)
    requires i < |doc| && ChildrenInRange(doc, i)
  {
    exists k :: 0 <= k < |doc[i].children| && doc[doc[i].children[k]].nodeName == Some(name)
  }

  /** Every required name is supplied by an attribute or a child of node `i`. */
  predicate RequiredPresent(doc: seq<IonNode>, i: nat, rules: seq<string>)
    requires i < |doc| && ChildrenInRange(doc, i)
  {
    forall n :: n in rules ==> HasAttributeNamed(doc[i].attributes, n) || HasChildNamed(doc, i, n)
  }

  /** The names of a node's attributes, in order. */
  function AttributeNames(attrs: seq<IonAttribute>): (r: seq<Option<string>>)
    ensures |r| == |attrs| && forall k :: 0 <= k < |attrs| ==> r[k] == attrs[k].name
  {
    seq(|attrs|, k requires 0 <= k < |attrs| => attrs[k].name)
  }

  /** The distinct elements of `names`, each once. */
  function Distinct(names: seq<Option<string>>): (r: seq<Option<string>>)
    ensures forall x :: x in r <==> x in names
    ensures forall i, j :: 0 <= i < j < |r| ==> r[i] != r[j]
  {
    if |names| == 0 then []
    else
      var init := names[..|names| - 1];
      var last := names[|names| - 1];
      assert names == init + [last];
      Distinct(init) + (if last in init then [] else [last])
  }

  /** The elements of `names` that `all` holds more than once, in their order in `names`. */
  function Repeated(names: seq<Option<string>>, all: multiset<Option<string>>): (r: seq<Option<string>>)
    ensures forall x :: x in r <==> x in names && all[x] >= 2
  {
    if |names| == 0 then []
    else (if all[names[0]] >= 2 then [names[0]] else []) + Repeated(names[1..], all)
  }

  /** No element occurs twice. */
  predicate NoRepeats(s: seq<Option<string>>) {
    forall i, j :: 0 <= i < j < |s| ==> s[i] != s[j]
  }

  /** Filtering a list without repetitions gives a list without repetitions. */
  lemma {:induction false} RepeatedDistinct(names: seq<Option<string>>, all: multiset<Option<string>>)
    requires NoRepeats(names)
    ensures NoRepeats(Repeated(names, all))
  {
    if |names| > 0 {
      var rest := Repeated(names[1..], all);
      RepeatedDistinct(names[1..], all);
      assert names[0] !in names[1..] by {
        forall k | 0 <= k < |names| - 1
          ensures names[1..][k] != names[0]
        {
          assert names[1..][k] == names[k + 1];
        }
      }
      var h := if all[names[0]] >= 2 then [names[0]] else [];
      var r := h + rest;
      assert r == Repeated(names, all);
      forall i, j | 0 <= i < j < |r|
        ensures r[i] != r[j]
      {
        if i < |h| {
          assert r[i] == names[0] && r[j] == rest[j - |h|];
          assert r[j] in rest;
        } else {
          assert r[i] == rest[i - |h|] && r[j] == rest[j - |h|];
        }
      }
    }
  }

  /** The attribute names that occur more than once, each once (the keys of the groups with
      more than one member). */
  function DuplicateNames(names: seq<Option<string>>): (r: seq<Option<string>>)
    ensures forall x :: x in r <==> multiset(names)[x] >= 2
    ensures forall i, j :: 0 <= i < j < |r| ==> r[i] != r[j]
  {
    var d := Distinct(names);
    RepeatedDistinct(d, multiset(names));
    assert forall x :: multiset(names)[x] >= 2 ==> x in names;
    Repeated(d, multiset(names))
  }

  /** The children of a non-list node are all names of properties of its type. */
  predicate ChildrenAreProperties(schema: Schema, doc: seq<IonNode>, i: nat, t: TypeRef)
    requires i < |doc| && ChildrenInRange(doc, i)
  {
    t.ListType? ||
    forall k :: 0 <= k < |doc[i].children| ==>
      HasProperty(PropertiesOf(schema, t), doc[doc[i].children[k]].nodeName)
  }

  /** The attributes of a node are all names of properties of its type. */
  predicate AttributesAreProperties(schema: Schema, attrs: seq<IonAttribute>, t: TypeRef) {
    forall k :: 0 <= k < |attrs| ==> HasProperty(PropertiesOf(schema, t), attrs[k].name)
  }

  /** The verdict of `ValidateNode` for node `i` bound to type `t`: the first of the four
      checks that fails decides the error, and every error reports the node's line. */
  function CheckNode(schema: Schema, doc: seq<IonNode>, i: nat, t: TypeRef): (r: Outcome)
    requires i < |doc| && ChildrenInRange(doc, i)
    ensures r.Pass? <==>
              RequiredPresent(doc, i, RequiredProperties(PropertiesOf(schema, t))) &&
              DuplicateNames(AttributeNames(doc[i].attributes)) == [] &&
              ChildrenAreProperties(schema, doc, i, t) &&
              AttributesAreProperties(schema, doc[i].attributes, t)
    ensures !RequiredPresent(doc, i, RequiredProperties(PropertiesOf(schema, t))) ==>
              r == Fail(RequiredFieldNotFound(doc[i].documentLine))
    ensures RequiredPresent(doc, i, RequiredProperties(PropertiesOf(schema, t))) &&
            DuplicateNames(AttributeNames(doc[i].attributes)) != [] ==>
              r == Fail(DuplicateAttribute(doc[i].documentLine, DuplicateNames(AttributeNames(doc[i].attributes))))
    ensures RequiredPresent(doc, i, RequiredProperties(PropertiesOf(schema, t))) &&
            DuplicateNames(AttributeNames(doc[i].attributes)) == [] &&
            !ChildrenAreProperties(schema, doc, i, t) ==>
              r == Fail(InvalidNode(doc[i].documentLine))
    ensures RequiredPresent(doc, i, RequiredProperties(PropertiesOf(schema, t))) &&
            DuplicateNames(AttributeNames(doc[i].attributes)) == [] &&
            ChildrenAreProperties(schema, doc, i, t) &&
            !AttributesAreProperties(schema, doc[i].attributes, t) ==>
              r == Fail(InvalidAttribute(doc[i].documentLine))
  {
    var line := doc[i].documentLine;
    var dups := DuplicateNames(AttributeNames(doc[i].attributes));
    if !RequiredPresent(doc, i, RequiredProperties(PropertiesOf(schema, t))) then
      Fail(RequiredFieldNotFound(line))
    else if dups != [] then Fail(DuplicateAttribute(line, dups))
    else if !ChildrenAreProperties(schema, doc, i, t) then Fail(InvalidNode(line))
    else if !AttributesAreProperties(schema, doc[i].attributes, t) then Fail(InvalidAttribute(line))
    else Pass
  }

  /** Looks through `props` for one named `name` (the inner search of the child and the
      attribute checks). */
  method PropertyNamed(props: seq<Property>, name: Option<string>) returns (found: bool)
    ensures found == HasProperty(props, name)
  {
    found := false;
    var p := 0;
    while p < |props|
      invariant 0 <= p <= |props|
      invariant forall q :: 0 <= q < p ==> name != Some(props[q].name)
    {
      if Some(props[p].name) == name {
        found := true;
        return;
      }
      p := p + 1;
    }
  }

  /** Looks, rule by rule, for an attribute or a child with each required name. */
  method ValidateRequiredProperties(doc: seq<IonNode>, i: nat, rules: seq<string>) returns (r: Outcome)
    requires i < |doc| && ChildrenInRange(doc, i)
    ensures r == (if RequiredPresent(doc, i, rules) then Pass
                  else Fail(RequiredFieldNotFound(doc[i].documentLine)))
  {
    var k := 0;
    while k < |rules|
      invariant 0 <= k <= |rules|
      invariant forall j :: 0 <= j < k ==>
                  HasAttributeNamed(doc[i].attributes, rules[j]) || HasChildNamed(doc, i, rules[j])
    {
      var found := false;
      if HasAttributeNamed(doc[i].attributes, rules[k]) {
        found := true;
      } else if HasChildNamed(doc, i, rules[k]) {
        found := true;
      }
      if !found {
        return Fail(RequiredFieldNotFound(doc[i].documentLine));
      }
      k := k + 1;
    }
    return Pass;
  }

  /** For a node whose type is not a list, rejects the first child whose name is no property
      of the type. */
  method ValidateChildNodesAreProperties(schema: Schema, doc: seq<IonNode>, i: nat, t: TypeRef)
    returns (r: Outcome)
    requires i < |doc| && ChildrenInRange(doc, i)
    ensures r == (if ChildrenAreProperties(schema, doc, i, t) then Pass
                  else Fail(InvalidNode(doc[i].documentLine)))
  {
    if t.ListType? {
      return Pass;
    }
    var props := PropertiesOf(schema, t);
    var c := 0;
    while c < |doc[i].children|
      invariant 0 <= c <= |doc[i].children|
      invariant forall j :: 0 <= j < c ==> HasProperty(props, doc[doc[i].children[j]].nodeName)
    {
      var childFound := PropertyNamed(props, doc[doc[i].children[c]].nodeName);
      if !childFound {
        return Fail(InvalidNode(doc[i].documentLine));
      }
      c := c + 1;
    }
    return Pass;
  }

  /** Rejects the first attribute whose name is no property of the type. */
  method ValidateAttributesExistsInAssembly(schema: Schema, node: IonNode, t: TypeRef)
    returns (r: Outcome)
    ensures r == (if AttributesAreProperties(schema, node.attributes, t) then Pass
                  else Fail(InvalidAttribute(node.documentLine)))
  {
    var props := PropertiesOf(schema, t);
    var a := 0;
    while a < |node.attributes|
      invariant 0 <= a <= |node.attributes|
      invariant forall j :: 0 <= j < a ==> HasProperty(props, node.attributes[j].name)
    {
      var attributeFound := PropertyNamed(props, node.attributes[a].name);
      if !attributeFound {
        return Fail(InvalidAttribute(node.documentLine));
      }
      a := a + 1;
    }
    return Pass;
  }

  /** `ValidateNode`: the four checks in order; the first failure is the error. */
  method ValidateNode(schema: Schema, doc: seq<IonNode>, i: nat, t: TypeRef) returns (r: Outcome)
    requires i < |doc| && ChildrenInRange(doc, i)
    ensures r == CheckNode(schema, doc, i, t)
  {
    var rules := GetTypeValidationRules(schema, t);
    r := ValidateRequiredProperties(doc, i, rules);
    if r.Fail? {
      return;
    }
    var duplicates := DuplicateNames(AttributeNames(doc[i].attributes));
    if |duplicates| > 0 {
      return Fail(DuplicateAttribute(doc[i].documentLine, duplicates));
    }
    r := ValidateChildNodesAreProperties(schema, doc, i, t);
    if r.Fail? {
      return;
    }
    r := ValidateAttributesExistsInAssembly(schema, doc[i], t);
  }
}
