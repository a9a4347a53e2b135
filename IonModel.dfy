/** The node model: the attribute pair, the lexer's positional context, the in-progress node
    `IonNodeTemp` (a mutable record) and the finished `IonNode`.

    Finished nodes live in the document's node list; a node refers to its parent and its
    children by their positions in that list, which is how the tree builder links them. */
module IonModel {
  import opened Wrappers
  import opened IonText

  /** Where the lexer is within a node line. */
  datatype Context = NodeName | AttributeName | AttributeValue

  /** A `name=value` pair of a node. The name is absent (null) only when a value is closed
      without a key having been read. */
  datatype IonAttribute = IonAttribute(name: Option<string>, value: string)

  /** The value held by the fields of an `IonNodeTemp`, apart from its links. */
  datatype Draft = Draft(nodeName: Option<string>, level: Option<int>, documentLine: Option<int>,
                         isRootNode: Option<bool>, attributes: seq<IonAttribute>, isValid: bool)

  /** A finished node. `parent` and `children` are positions in the document's node list. */
  datatype IonNode = IonNode(nodeName: Option<string>, level: int, documentLine: int,
                             isRootNode: bool, attributes: seq<IonAttribute>,
                             parent: Option<nat>, children: seq<nat>)

  /** The children of node `i` are positions of the document. */
  predicate ChildrenInRange(doc: seq<IonNode>, i: nat)
    requires i < |doc|
  {
    forall k :: 0 <= k < |doc[i].children| ==> doc[i].children[k] < |doc|
  }

  /** Every link points into the document, and every child comes after its parent: the shape
      the tree builder produces. */
  predicate WellLinked(doc: seq<IonNode>) {
    (forall i :: 0 <= i < |doc| && doc[i].parent.Some? ==> doc[i].parent.value < i) &&
    (forall i, k :: 0 <= i < |doc| && 0 <= k < |doc[i].children| ==> i < doc[i].children[k] < |doc|)
  }

  /** The decimal digits of `n`, as .NET prints an `int`. */
  function NatToString(n: nat): (r: string)
    ensures |r| >= 1
    ensures forall k :: 0 <= k < |r| ==> '0' <= r[k] <= '9'
  {
    if n < 10 then [(48 + n) as char] else NatToString(n / 10) + [(48 + n % 10) as char]
  }

  /** The number a string of decimal digits denotes. */
  function DecimalValue(s: string): nat
    requires forall k :: 0 <= k < |s| ==> '0' <= s[k] <= '9'
  {
    if |s| == 0 then 0 else 10 * DecimalValue(s[..|s| - 1]) + (s[|s| - 1] as int - 48)
  }

  lemma {:induction false} NatToStringRoundTrip(n: nat)
    ensures DecimalValue(NatToString(n)) == n
  {
    if n >= 10 {
      var s := NatToString(n);
      assert s[..|s| - 1] == NatToString(n / 10);
      NatToStringRoundTrip(n / 10);
    }
  }

  /** A possibly-null name as string concatenation prints it. */
  function NameText(name: Option<string>): string {
    name.GetOr("")
  }

  /** The debug text shared by both node records. */
  function DebugText(name: Option<string>, parentName: Option<string>, childCount: nat): (r: string)
    ensures |r| == |NameText(name)| + 21 + |NameText(parentName)| + |NatToString(childCount)|
    ensures r[..|NameText(name)|] == NameText(name)
    ensures r[|NameText(name)|..|NameText(name)| + 10] == ": Parent: "
    ensures r[|NameText(name)| + 10..|r| - |NatToString(childCount)|] == NameText(parentName) + " Children: "
    ensures r[|r| - |NatToString(childCount)|..] == NatToString(childCount)
  {
    NameText(name) + ": Parent: " + NameText(parentName) + " Children: " + NatToString(childCount)
  }

  /** A node still being read. The parameterless constructor yields an invalid placeholder;
      the three-argument one a valid node at a known level and line. */
  class IonNodeTemp {
    var nodeName: Option<string>
    var level: Option<int>
    var documentLine: Option<int>
    var isRootNode: Option<bool>
    var attributes: seq<IonAttribute>
    var parent: IonNodeTemp?
    var children: seq<IonNodeTemp>
    var isValid: bool

    constructor ()
      ensures !isValid
      ensures nodeName == None && level == None && documentLine == None && isRootNode == None
      ensures attributes == [] && children == [] && parent == null
    {
      isValid := false;
      nodeName, level, documentLine, isRootNode := None, None, None, None;
      attributes := [];
      children := [];
      parent := null;
    }

    constructor Create(level: int, documentLine: int, isRootNode: bool)
      ensures isValid
      ensures this.level == Some(level) && this.documentLine == Some(documentLine)
      ensures this.isRootNode == Some(isRootNode) && nodeName == None
      ensures attributes == [] && children == [] && parent == null
    {
      isValid := true;
      this.level := Some(level);
      this.documentLine := Some(documentLine);
      this.isRootNode := Some(isRootNode);
      nodeName := None;
      attributes := [];
      children := [];
      parent := null;
    }

    /** The node's fields as a value. */
    function Snapshot(): Draft
      reads this
    {
      Draft(nodeName, level, documentLine, isRootNode, attributes, isValid)
    }

    /** `name: Parent: <parent name or empty> Children: <count>`. */
    function ToString(): (r: string)
      reads this, parent
      ensures |r| == |NameText(nodeName)| + 21 + |NameText(if parent == null then None else parent.nodeName)| +
                     |NatToString(|children|)|
      ensures r[..|NameText(nodeName)|] == NameText(nodeName)
      ensures r[|NameText(nodeName)|..|NameText(nodeName)| + 10] == ": Parent: "
      ensures r[|NameText(nodeName)| + 10..|r| - |NatToString(|children|)|] ==
              NameText(if parent == null then None else parent.nodeName) + " Children: "
      ensures r[|r| - |NatToString(|children|)|..] == NatToString(|children|)
    {
      DebugText(nodeName, if parent == null then None else parent.nodeName, |children|)
    }
  }

  /** The conversion of a finished `IonNodeTemp` into an `IonNode`: the level, line and root
      flag must be present (unboxing a missing one raises `InvalidOperationException`); name
      and attributes are copied; the node starts unlinked. */
  function FromDraft(d: Draft): (r: Result<IonNode>)
    ensures r.Ok? <==> d.level.Some? && d.documentLine.Some? && d.isRootNode.Some?
    ensures r.Err? ==> r.error == InvalidOperation
    ensures r.Ok? ==> r.value.nodeName == d.nodeName && Some(r.value.level) == d.level &&
                      Some(r.value.documentLine) == d.documentLine &&
                      Some(r.value.isRootNode) == d.isRootNode
    ensures r.Ok? ==> r.value.attributes == d.attributes
    ensures r.Ok? ==> r.value.parent == None && r.value.children == []
  {
    if d.level.None? || d.documentLine.None? || d.isRootNode.None? then Err(InvalidOperation)
    else Ok(IonNode(d.nodeName, d.level.value, d.documentLine.value, d.isRootNode.value,
                    d.attributes, None, []))
  }

  /** `new IonNode(temp)`: copies the scalar fields and, one by one, the attributes. */
  method NewIonNode(t: IonNodeTemp) returns (r: Result<IonNode>)
    requires t.parent == null && t.children == []
    ensures r == FromDraft(t.Snapshot())
  {
    if t.level.None? || t.documentLine.None? || t.isRootNode.None? {
      return Err(InvalidOperation);
    }
    var attrs: seq<IonAttribute> := [];
    var k := 0;
    while k < |t.attributes|
      invariant 0 <= k <= |t.attributes|
      invariant attrs == t.attributes[..k]
    {
      attrs := attrs + [IonAttribute(t.attributes[k].name, t.attributes[k].value)];
      k := k + 1;
    }
    assert t.attributes[..k] == t.attributes;
    r := Ok(IonNode(t.nodeName, t.level.value, t.documentLine.value, t.isRootNode.value,
                    attrs, None, []));
  }

  /** `IonNode.ToString`, for the node at position `i` of a document. */
  function NodeToString(doc: seq<IonNode>, i: nat): (r: string)
    requires i < |doc|
    requires doc[i].parent.Some? ==> doc[i].parent.value < |doc|
    ensures |r| == |NameText(doc[i].nodeName)| + 21 +
                   |NameText(if doc[i].parent.Some? then doc[doc[i].parent.value].nodeName else None)| +
                   |NatToString(|doc[i].children|)|
    ensures r[..|NameText(doc[i].nodeName)|] == NameText(doc[i].nodeName)
    ensures r[|NameText(doc[i].nodeName)|..|NameText(doc[i].nodeName)| + 10] == ": Parent: "
    ensures r[|NameText(doc[i].nodeName)| + 10..|r| - |NatToString(|doc[i].children|)|] ==
            NameText(if doc[i].parent.Some? then doc[doc[i].parent.value].nodeName else None) + " Children: "
    ensures r[|r| - |NatToString(|doc[i].children|)|..] == NatToString(|doc[i].children|)
  {
    var n := doc[i];
    DebugText(n.nodeName, if n.parent.Some? then doc[n.parent.value].nodeName else None,
              |n.children|)
  }

  /** Converting an unlinked temporary node keeps its debug text. */
  lemma ConversionKeepsDebugText(t: IonNodeTemp)
    requires t.parent == null && t.children == []
    requires FromDraft(t.Snapshot()).Ok?
    ensures NodeToString([FromDraft(t.Snapshot()).value], 0) == t.ToString()
  {
  }
}
