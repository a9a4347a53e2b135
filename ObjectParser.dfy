/** The object parser: walks a linked document from its root node and builds the object graph
    the schema describes. Each method is proved to compute what the matching function of
    `IonBinderSpec` describes. */
module IonObjectParser {
  import opened Wrappers
  import opened IonModel
  import opened IonSchema
  import opened IonValidator
  import opened IonBinderSpec

  class IonNodeToObjectParser {
    /** The plugin assembly, as the schema reflection would report. */
    const schema: Schema

    constructor (schema: Schema)
      ensures this.schema == schema
    {
      this.schema := schema;
    }

    /** `Parse`: the object graph of the document whose root node is the first node. */
    method Parse(doc: seq<IonNode>) returns (r: Result<Value>)
      requires WellLinked(doc) && |doc| > 0
      ensures r == Materialize(schema, doc, 0, None)
    {
      r := Instantiate(doc, 0, None);
    }

    /** `Instantiate`: node `i` of the document, whose parent has type `parentType`, made into
        an instance: its type is resolved and validated, the instance is created, then the
        attributes, the children (recursively) and the defaults are bound. */
    method Instantiate(doc: seq<IonNode>, i: nat, parentType: Option<TypeRef>) returns (r: Result<Value>)
      requires WellLinked(doc) && i < |doc|
      ensures r == Materialize(schema, doc, i, parentType)
      decreases |doc| - i
    {
      var node := doc[i];
      var nodeType: TypeRef;
      if node.isRootNode {
        nodeType :- RootType(schema, node);
      } else {
        nodeType :- GetTypeByNodeName(schema, parentType, node);
      }
      var valid := ValidateNode(schema, doc, i, nodeType);
      if valid.Fail? {
        return Err(valid.error);
      }
      var instance :- CreateInstance(schema, nodeType, node.documentLine);
      var attributed :- SetAttributes(nodeType, node.attributes, node.documentLine, instance);
      var linked :- ConnectChildren(doc, i, nodeType, attributed);
      r := SetDefaults(nodeType, linked.supplied, linked.instance);
    }

    /** The attribute loop of `Instantiate`: for each attribute, the first property named like
        it is marked supplied, then given the attribute's text converted to its type. */
    method SetAttributes(nodeType: TypeRef, attrs: seq<IonAttribute>, line: int, created: Value)
      returns (r: Result<Binding>)
      ensures r == BindAttributes(schema, nodeType, attrs, 0, Binding(created, []), line)
    {
      var props := PropertiesOf(schema, nodeType);
      var instance := created;
      var supplied: seq<Option<string>> := [];
      var a := 0;
      while a < |attrs|
        invariant 0 <= a <= |attrs|
        invariant BindAttributes(schema, nodeType, attrs, 0, Binding(created, []), line) ==
                  BindAttributes(schema, nodeType, attrs, a, Binding(instance, supplied), line)
      {
        var attr := attrs[a];
        var j := PropertyIndex(props, attr.name);
        if j < |props| {
          FindPropertyFirst(props, props[j].name, j);
          ghost var before := Binding(instance, supplied);
          supplied := supplied + [Some(props[j].name)];
          var parsed :- ParseStringValue(schema, attr.value, props[j].ptype, line);
          instance :- SetPropertyValue(schema, nodeType, instance, props[j].name, parsed);
          assert BindAttributes(schema, nodeType, attrs, a, before, line) ==
                 BindAttributes(schema, nodeType, attrs, a + 1, Binding(instance, supplied), line);
        } else {
          assert MatchingProperty(props, attr.name).None?;
        }
        a := a + 1;
      }
      r := Ok(Binding(instance, supplied));
    }

    /** The inner search of the attribute loop: the position of the first property named
        `name`, or the number of properties when none is. */
    static method PropertyIndex(props: seq<Property>, name: Option<string>) returns (j: nat)
      ensures j <= |props|
      ensures forall m :: 0 <= m < j ==> name != Some(props[m].name)
      ensures j < |props| ==> name == Some(props[j].name)
    {
      j := 0;
      while j < |props| && name != Some(props[j].name)
        invariant j <= |props|
        invariant forall m :: 0 <= m < j ==> name != Some(props[m].name)
      {
        j := j + 1;
      }
    }

    /** The child loop of `Instantiate` for node `i` of type `nodeType`: each child is marked
        supplied, instantiated, and either added to a list instance or assigned to every
        property named like it or like one of its base types. */
    method ConnectChildren(doc: seq<IonNode>, i: nat, nodeType: TypeRef, attributed: Binding)
      returns (r: Result<Binding>)
      requires WellLinked(doc) && i < |doc|
      ensures r == BindChildren(schema, doc, i, nodeType, 0, attributed)
      decreases |doc| - i, 0
    {
      var children := doc[i].children;
      var instance := attributed.instance;
      var supplied := attributed.supplied;
      var k := 0;
      while k < |children|
        invariant 0 <= k <= |children|
        invariant BindChildren(schema, doc, i, nodeType, 0, attributed) ==
                  BindChildren(schema, doc, i, nodeType, k, Binding(instance, supplied))
      {
        var c := children[k];
        var child := doc[c];
        ghost var before := Binding(instance, supplied);
        supplied := supplied + [child.nodeName];
        var childType :- GetTypeByNodeName(schema, Some(nodeType), child);
        var childBaseTypes := GetAllBaseTypes(schema, childType);
        var childInstance :- Instantiate(doc, c, Some(nodeType));
        if nodeType.ListType? {
          if instance.ListV? {
            instance := ListV(instance.items + [childInstance]);
          }
        } else {
          instance :- AssignToProperties(nodeType, instance, child.nodeName, childBaseTypes, childInstance);
        }
        assert BindChildren(schema, doc, i, nodeType, k, before) ==
               BindChildren(schema, doc, i, nodeType, k + 1, Binding(instance, supplied));
        k := k + 1;
      }
      r := Ok(Binding(instance, supplied));
    }

    /** The property loop for one child of a non-list node. */
    method AssignToProperties(nodeType: TypeRef, instance: Value, childName: Option<string>,
                              childBaseTypes: seq<TypeRef>, childInstance: Value) returns (r: Result<Value>)
      ensures r == AssignChild(schema, nodeType, PropertiesOf(schema, nodeType), 0, instance, childName,
                               childBaseTypes, childInstance)
    {
      var props := PropertiesOf(schema, nodeType);
      var current := instance;
      var j := 0;
      while j < |props|
        invariant 0 <= j <= |props|
        invariant AssignChild(schema, nodeType, props, 0, instance, childName, childBaseTypes, childInstance) ==
                  AssignChild(schema, nodeType, props, j, current, childName, childBaseTypes, childInstance)
      {
        var p := props[j];
        ghost var before := current;
        if ReceivesChild(p, childName, childBaseTypes) {
          current :- SetPropertyValue(schema, nodeType, current, p.name, childInstance);
        }
        assert AssignChild(schema, nodeType, props, j, before, childName, childBaseTypes, childInstance) ==
               AssignChild(schema, nodeType, props, j + 1, current, childName, childBaseTypes, childInstance);
        j := j + 1;
      }
      r := Ok(current);
    }

    /** The default loop of `Instantiate`: every property nothing supplied is given an empty
        list when it is a list, its declared default otherwise. */
    method SetDefaults(nodeType: TypeRef, supplied: seq<Option<string>>, linked: Value) returns (r: Result<Value>)
      ensures r == ApplyDefaults(schema, nodeType, PropertiesOf(schema, nodeType), 0, supplied, linked)
    {
      var props := PropertiesOf(schema, nodeType);
      var instance := linked;
      var j := 0;
      while j < |props|
        invariant 0 <= j <= |props|
        invariant ApplyDefaults(schema, nodeType, props, 0, supplied, linked) ==
                  ApplyDefaults(schema, nodeType, props, j, supplied, instance)
      {
        var p := props[j];
        if Some(p.name) !in supplied {
          if p.ptype.ListType? {
            instance :- SetPropertyValue(schema, nodeType, instance, p.name, ListV([]));
          } else {
            var defaultValue := p.defaultValue;
            if defaultValue.Some? {
              instance :- SetPropertyValue(schema, nodeType, instance, p.name, defaultValue.value);
            }
          }
        }
        j := j + 1;
      }
      r := Ok(instance);
    }
  }
}
