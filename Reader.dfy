/** The reader's entry point: checks the plugin's root class, reads the document's node tree
    and materializes it as the root object. */
module IonReaderFacade {
  import opened Wrappers
  import opened IonModel
  import opened IonSchema
  import opened IonValidator
  import opened IonLexerSpec
  import opened IonLexerProps
  import opened IonTreeProps
  import opened IonFileReader
  import opened IonBinderSpec
  import opened IonObjectParser

  /** The plugin declares exactly one root class, and it is the expected one. */
  predicate RootClassIs(schema: Schema, rootTypeName: string)
    ensures RootClassIs(schema, rootTypeName) ==>
              (exists c :: c in schema.classes && c.isRoot && c.name == rootTypeName) &&
              (forall c :: c in schema.classes && c.isRoot ==> c.name == rootTypeName)
  {
    |RootClasses(schema.classes)| == 1 && RootClasses(schema.classes)[0].name == rootTypeName
  }

  /** What `IonReader.Parse` yields for a document whose lines are `lines`, read while the file
      reader's context is `context`. */
  function ReaderResult(schema: Schema, rootTypeName: string, lines: seq<string>, context: Context): (r: Result<Value>)
    ensures !RootClassIs(schema, rootTypeName) ==> r == Err(InvalidRootNode)
    ensures RootClassIs(schema, rootTypeName) && ReaderParseSpec(lines, rootTypeName, context).Err? ==>
              r == Err(ReaderParseSpec(lines, rootTypeName, context).error)
    ensures r.Ok? ==> RootClassIs(schema, rootTypeName) && ReaderParseSpec(lines, rootTypeName, context).Ok?
  {
    if !RootClassIs(schema, rootTypeName) then Err(InvalidRootNode)
    else
      match ReaderParseSpec(lines, rootTypeName, context)
      case Err(e) => Err(e)
      case Ok(doc) =>
        ReaderParseShape(lines, rootTypeName, context);
        Materialize(schema, doc, 0, None)
  }

  /** A plugin without exactly one root class, or with another one, is refused before the
      document is read; otherwise the document's object is an object of a declared class named
      like the tree's first node, and that node is the root node. */
  lemma ReaderYieldsRootObject(schema: Schema, rootTypeName: string, lines: seq<string>, context: Context)
    ensures !RootClassIs(schema, rootTypeName) ==> ReaderResult(schema, rootTypeName, lines, context) == Err(InvalidRootNode)
    ensures var r := ReaderResult(schema, rootTypeName, lines, context);
            r.Ok? ==>
              var doc := ReaderParseSpec(lines, rootTypeName, context);
              RootClassIs(schema, rootTypeName) && doc.Ok? && |doc.value| > 0 && doc.value[0].isRootNode &&
              r.value.ObjV? && doc.value[0].nodeName == Some(r.value.className) &&
              FindClass(schema.classes, r.value.className).Some?
  {
    var r := ReaderResult(schema, rootTypeName, lines, context);
    if r.Ok? {
      var doc := ReaderParseSpec(lines, rootTypeName, context).value;
      ReaderParseShape(lines, rootTypeName, context);
      assert r == Materialize(schema, doc, 0, None);
      assert doc[0].isRootNode;
      MaterializedClass(schema, doc, 0, None);
    }
  }

  /** `Validator.RootNodeExistInFile`: whether the root line search finds a line. A missing root
      node answers false; any other error of the search propagates. */
  method RootLineExists(textFileParser: FileToIonNodeReader) returns (r: Result<bool>)
    modifies textFileParser
    ensures var v := Verdicts(textFileParser.fileLines, textFileParser.rootNodeName, 0, Flags(false, false));
            (r == Ok(false) <==> forall k :: 0 <= k < |v| ==> v[k] == Ok(false)) &&
            (r == Ok(true) ==> exists k :: 0 <= k < |v| && v[k] == Ok(true) && forall j :: 0 <= j < k ==> v[j] == Ok(false)) &&
            (r.Err? ==> r.error != RootNodeNotFound &&
                        exists k :: 0 <= k < |v| && v[k] == Err(r.error) && forall j :: 0 <= j < k ==> v[j] == Ok(false))
    ensures textFileParser.context == old(textFileParser.context)
    ensures Flags(textFileParser.inQualifiedString, textFileParser.inTextBlock) ==
            RootSearch(textFileParser.fileLines, textFileParser.rootNodeName, 0, Flags(false, false)).flags
  {
    var line := textFileParser.GetRootNodeLine();
    RootSearchFindsFirst(textFileParser.fileLines, textFileParser.rootNodeName);
    ghost var v := Verdicts(textFileParser.fileLines, textFileParser.rootNodeName, 0, Flags(false, false));
    if line.Ok? {
      r := Ok(true);
    } else if line.error == RootNodeNotFound {
      r := Ok(false);
    } else {
      r := Err(line.error);
    }
  }

  /** `IonReader<TRootNodeType>`: a file reader for the root class's name and an object parser
      over the plugin's schema. */
  class IonReader {
    const fileParser: FileToIonNodeReader
    const nodeParser: IonNodeToObjectParser
    const rootTypeName: string

    /** The file reader looks for the reader's root class name. */
    predicate Valid() {
      fileParser.rootNodeName == rootTypeName
    }

    constructor (fileLines: seq<string>, schema: Schema, rootTypeName: string)
      ensures Valid() && nodeParser.schema == schema && this.rootTypeName == rootTypeName
      ensures fileParser.fileLines == fileLines && fresh(fileParser)
      ensures fileParser.context == NodeName && !fileParser.inQualifiedString && !fileParser.inTextBlock
    {
      this.rootTypeName := rootTypeName;
      fileParser := new FileToIonNodeReader(fileLines, rootTypeName);
      nodeParser := new IonNodeToObjectParser(schema);
    }

    /** `Parse`: the root class check, then the node tree, then the root object. */
    method Parse() returns (r: Result<Value>)
      requires Valid()
      modifies fileParser
      ensures r == ReaderResult(nodeParser.schema, rootTypeName, fileParser.fileLines, old(fileParser.context))
      ensures !RootClassIs(nodeParser.schema, rootTypeName) ==> unchanged(fileParser)
      ensures RootClassIs(nodeParser.schema, rootTypeName) &&
              ParseToFlatSpec(fileParser.fileLines, rootTypeName, old(fileParser.context)).Ok? ==>
                var s := ParseToFlatScan(fileParser.fileLines, rootTypeName, old(fileParser.context)).value;
                fileParser.inQualifiedString == s.inQuoted && fileParser.inTextBlock == s.inTextBlock &&
                fileParser.context == s.context
      ensures RootClassIs(nodeParser.schema, rootTypeName) &&
              RootSearch(fileParser.fileLines, rootTypeName, 0, Flags(false, false)).result.Err? ==>
                fileParser.context == old(fileParser.context) &&
                Flags(fileParser.inQualifiedString, fileParser.inTextBlock) ==
                RootSearch(fileParser.fileLines, rootTypeName, 0, Flags(false, false)).flags
    {
      var rootCheck := ValidateRootNode(nodeParser.schema.classes, rootTypeName);
      if rootCheck.Fail? {
        return Err(rootCheck.error);
      }
      var rootNode :- fileParser.Parse();
      ReaderParseShape(fileParser.fileLines, rootTypeName, old(fileParser.context));
      r := nodeParser.Parse(rootNode);
    }

    /** `RootNodeExistInFile`: asks the file reader whether the root node's line exists. */
    method RootNodeExistInFile() returns (r: Result<bool>)
      requires Valid()
      modifies fileParser
      ensures var v := Verdicts(fileParser.fileLines, rootTypeName, 0, Flags(false, false));
              (r == Ok(false) <==> forall k :: 0 <= k < |v| ==> v[k] == Ok(false)) &&
              (r == Ok(true) ==> exists k :: 0 <= k < |v| && v[k] == Ok(true) && forall j :: 0 <= j < k ==> v[j] == Ok(false)) &&
              (r.Err? ==> r.error != RootNodeNotFound)
      ensures fileParser.context == old(fileParser.context)
      ensures Flags(fileParser.inQualifiedString, fileParser.inTextBlock) ==
              RootSearch(fileParser.fileLines, rootTypeName, 0, Flags(false, false)).flags
    {
      r := RootLineExists(fileParser);
      assert fileParser.rootNodeName == rootTypeName;
    }
  }

  /** Asking whether the root line exists does not change what a later `Parse` reads: a
      reader asked first parses the document as a fresh one does. */
  method ExistenceCheckThenParse(fileLines: seq<string>, schema: Schema, rootTypeName: string)
    returns (found: Result<bool>, r: Result<Value>)
    ensures r == ReaderResult(schema, rootTypeName, fileLines, NodeName)
  {
    var reader := new IonReader(fileLines, schema, rootTypeName);
    found := reader.RootNodeExistInFile();
    r := reader.Parse();
  }
}
