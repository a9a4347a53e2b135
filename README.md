# ION reader of the DAF core SDK, modelled in Dafny

The DAF core SDK reads a plugin's ION document, an indentation-based text format in which each
line `Name: attr=value ...` opens a node and tabs give its depth. It turns the document into an
object graph of the plugin's own classes. This project models that reader in four stages.

- **File reader** (`FileToIonNodeReader`). It finds the line of the root node, then reads the
  document character by character:
  - it tracks quoted strings, `<! ... !>` text blocks, comments and indentation push/pop
    directives;
  - it builds one in-progress node (`IonNodeTemp`) per node line;
  - it converts these into `IonNode`s and links every node to the nearest earlier node one
    level up.

  The class keeps its mutable fields: the quote and text-block flags and the positional context.
  Each method is proved equal to a pure specification of the lexer (module `IonLexerSpec`).
  Lemmas (`IonLexerProps`, `IonTreeProps`) state what that lexer guarantees:
  - the first matching line is the root;
  - comments end a line;
  - the first node is the root;
  - the linked list of nodes is a well-formed tree.
- **Validator**. It checks:
  - that node lines are tab-indented;
  - that the plugin declares exactly one root class and that it is the expected one;
  - for each node, in this order: required properties, duplicate attributes, children that
    are no property, and attributes that are no property.
- **Object parser** (`IonNodeToObjectParser`). It resolves each node's type from its parent's
  property or list element type, including classes deriving from it. It then:
  - creates the instance;
  - converts and assigns attribute values;
  - instantiates and connects the children recursively;
  - fills defaults for the properties nobody supplied.

  The imperative methods are proved equal to `Materialize`, a recursive specification over the
  node tree. Lemmas state what the specification guarantees.
- **Facade and settings**. `IonReader.Parse` chains the stages. `Properties` is the SDK's
  shared settings object, with its `key=value` argument parser and its lazily created single
  instance.

Reflection is replaced by an explicit `Schema`: the plugin's classes, each with its base class,
root mark and properties. Each property has a type, a required flag, a default, writability and
the value its constructor gives it. Objects are values (`Value`): a class name with a field map,
a list, or a scalar. The node tree is an arena. `IonNode.parent` and `children` are positions in
the document's node list, and every child comes after its parent. That ordering is what the
recursion over the tree decreases on.

Files and modules:
- `Wrappers.dfy`: `Option`, `Result` and `Outcome`, and the error kinds (one per exception
  class).
- `Text.dfy` (`IonText`): the .NET string operations the reader uses.
- `IonModel.dfy`: attributes, context, `IonNodeTemp` and `IonNode`.
- `LexerSpec.dfy`, `LexerProps.dfy`, `TreeProps.dfy` and `FileReader.dfy`: the file reader.
- `Schema.dfy` and `Validator.dfy`: the schema and the validator.
- `BinderSpec.dfy` and `ObjectParser.dfy`: the object parser.
- `Reader.dfy`: the facade.
- `Properties.dfy`: the settings object.

## Model

| member | source | states |
|---|---|---|
| IonText.TrimStart | Daf.Core.Sdk/Ion/Reader/FileToIonNodeReader.cs:315 | the result is a suffix of the input, everything dropped is white space, and the result does not start with white space |
| IonText.Trim | Daf.Core.Sdk/Ion/Reader/FileToIonNodeReader.cs:182 | the result is no longer than the input and neither starts nor ends with white space; what it drops is stated by `TrimDropsWhiteSpace` and `TrimPadded` |
| IonText.TrimEnd | Daf.Core.Sdk/Ion/Reader/FileToIonNodeReader.cs:401 | the result is a prefix of the input, everything dropped is white space, and the result does not end with white space |
| IonText.TrimDropsWhiteSpace | Daf.Core.Sdk/Ion/Reader/FileToIonNodeReader.cs:182 | the trimmed text is the stretch of the input that starts where `TrimStart` stops, and everything before and after that stretch is white space |
| IonText.TrimStartSkipsPad | Daf.Core.Sdk/Ion/Reader/FileToIonNodeReader.cs:315 | `TrimStart` drops exactly a white-space prefix put in front of a text that starts with something else |
| IonText.TrimEndSkipsPad | Daf.Core.Sdk/Ion/Reader/FileToIonNodeReader.cs:401 | `TrimEnd` drops exactly a white-space suffix put after a text that ends with something else |
| IonText.TrimPadded | Daf.Core.Sdk/Ion/Reader/FileToIonNodeReader.cs:447 | trimming a text padded with white space on both sides gives the text back, when it neither starts nor ends with white space |
| IonText.TrimEndChar | Daf.Core.Sdk/Ion/Reader/FileToIonNodeReader.cs:182 | the result is a prefix, every dropped character is the given one, and the result does not end with it |
| IonText.IndexOf | Daf.Core.Sdk/Ion/Reader/FileToIonNodeReader.cs:349 | -1 exactly when the character is absent; otherwise the position of its first occurrence |
| IonText.LastIndexOf | Daf.Core.Sdk/Ion/Reader/FileToIonNodeReader.cs:436 | -1 exactly when the character is absent; otherwise the position of its last occurrence |
| IonText.Split | Daf.Core.Sdk/Properties.cs:46 | at least one piece, no piece contains the separator, and joining the pieces with it gives back the input |
| IonText.ToUpper | Daf.Core.Sdk/Ion/Reader/IonNodeToObjectParser.cs:264 | same length; each ASCII lower-case letter is mapped to its upper-case form and every other character is kept |
| IonModel.IonNodeTemp.constructor | Daf.Core.Sdk/Ion/Model/IonNodeTemp.cs:26-31 | the placeholder node is invalid, with no name, level, line or root flag, and empty lists |
| IonModel.IonNodeTemp.Create | Daf.Core.Sdk/Ion/Model/IonNodeTemp.cs:33-41 | a valid node with the given level, line and root flag, no name and empty lists |
| IonModel.FromDraft | Daf.Core.Sdk/Ion/Model/IonNode.cs:24-43 | conversion succeeds exactly when level, line and root flag are set (otherwise `InvalidOperation`, the null unboxing); it copies name, level, line, root flag and attributes and leaves the links empty |
| IonModel.NewIonNode | Daf.Core.Sdk/Ion/Model/IonNode.cs:24-43 | the attribute-copying constructor yields what `FromDraft` specifies for the node's fields |
| IonModel.DebugText | Daf.Core.Sdk/Ion/Model/IonNode.cs:45-48 | the text is the name, `": Parent: "`, the parent's name, `" Children: "` and the child count's digits, in that order: each part is pinned to its own slice, and the length is the sum of the parts |
| IonModel.IonNodeTemp.ToString | Daf.Core.Sdk/Ion/Model/IonNodeTemp.cs:43-46 | the node name, `": Parent: "`, the parent's name (empty without a parent), `" Children: "` and the decimal child count, each in its own slice, and nothing else |
| IonModel.NodeToString | Daf.Core.Sdk/Ion/Model/IonNode.cs:45-48 | the same layout for a converted node, with the parent found by its position in the document |
| IonModel.NatToStringRoundTrip | Daf.Core.Sdk/Ion/Model/IonNode.cs:47 | the printed child count reads back as the same number |
| IonModel.ConversionKeepsDebugText | Daf.Core.Sdk/Ion/Model/IonNode.cs:45-48 | an unlinked temporary node and the `IonNode` made from it print the same debug text |
| IonLexerSpec.LeadingTabs | Daf.Core.Sdk/Ion/Reader/FileToIonNodeReader.cs:294-306 | counts the tabs before the first other character |
| IonLexerSpec.CleanNodeName | Daf.Core.Sdk/Ion/Reader/FileToIonNodeReader.cs:432-443 | a name without '.' is kept; a name ending in '.' is a `TextFileParser` error at that line; otherwise the text after the last '.' |
| IonLexerSpec.TrimSingle | Daf.Core.Sdk/Ion/Reader/FileToIonNodeReader.cs:411-430 | fails only on the empty string (the index error) or a lone quote; otherwise drops at most one quote at each end and nothing else |
| IonLexerSpec.CleanAttributeString | Daf.Core.Sdk/Ion/Reader/FileToIonNodeReader.cs:395-409 | fails (`TextFileParser`) exactly when the trimmed text is empty or a lone quote; otherwise the trimmed text without one framing quote on each side |
| IonLexerSpec.GetWindow | Daf.Core.Sdk/Ion/Reader/FileToIonNodeReader.cs:474-483 | the two characters at the position, or what is left of the line |
| IonLexerProps.PushThenPop | Daf.Core.Sdk/Ion/Reader/FileToIonNodeReader.cs:88-93 | a push line stacks its tab count plus the current offset, so the new offset is that sum, and a pop line right after it gives back the stack as it was before the push |
| IonLexerSpec.ContainsNodeName | Daf.Core.Sdk/Ion/Reader/FileToIonNodeReader.cs:362-393 | true exactly when outside quotes and text blocks the line has a ':' that comes before any '"' |
| IonLexerSpec.RootSearch | Daf.Core.Sdk/Ion/Reader/FileToIonNodeReader.cs:308-360 | a found root line lies at or after the start line and before the end |
| IonLexerSpec.ConvertAll | Daf.Core.Sdk/Ion/Reader/FileToIonNodeReader.cs:240-245 | one node per draft, each the conversion of its draft; fails (`InvalidOperation`) exactly when some draft cannot be converted |
| IonLexerSpec.SearchParent | Daf.Core.Sdk/Ion/Reader/FileToIonNodeReader.cs:264-274 | the nearest position at or before the start with the wanted level, or none at all |
| IonLexerSpec.ExpectedParent | Daf.Core.Sdk/Ion/Reader/FileToIonNodeReader.cs:260-277 | the parent of a node above level 0 is the nearest earlier node one level up; none exists exactly when no earlier node has that level |
| IonLexerSpec.FirstUnlinked | Daf.Core.Sdk/Ion/Reader/FileToIonNodeReader.cs:276-277 | the first node from a position on that finds no parent although it is above level 0 and not the root |
| IonLexerSpec.ChildrenUpTo | Daf.Core.Sdk/Ion/Reader/FileToIonNodeReader.cs:269-270 | exactly the nodes whose expected parent is the given node, in ascending order |
| IonLexerProps.Candidate | Daf.Core.Sdk/Ion/Reader/FileToIonNodeReader.cs:344-356 | the only error of the per-line root test is a malformed node name on that line |
| IonLexerProps.Verdicts | Daf.Core.Sdk/Ion/Reader/FileToIonNodeReader.cs:313-357 | one verdict per remaining line, none of them "root not found" |
| IonLexerProps.RootSearchDecides | Daf.Core.Sdk/Ion/Reader/FileToIonNodeReader.cs:313-357 | the root search decides as the per-line verdicts, taken in order, do |
| IonLexerProps.RootSearchFindsFirst | Daf.Core.Sdk/Ion/Reader/FileToIonNodeReader.cs:308-360 | `GetRootNodeLine` returns the first line whose verdict is a match, with every earlier line passed over; "root not found" exactly when every line is passed over; any other error is the verdict of the first line not passed over |
| IonLexerProps.CommentLineShape | Daf.Core.Sdk/Ion/Reader/FileToIonNodeReader.cs:280-291 | `IsComment` holds exactly when the first character that is not white space is the comment sign |
| IonLexerProps.PaddedDirective | Daf.Core.Sdk/Ion/Reader/FileToIonNodeReader.cs:445-459 | `IsIndentationPush` and `IsIndentationPop` accept their directive with any white space around it, and no line is both |
| IonLexerProps.ControlCommentOrBadIndent | Daf.Core.Sdk/Ion/Reader/FileToIonNodeReader.cs:81-84 | `LineControlOf`: a comment line is skipped; any other line indented with non-tab white space is a `TextFileParser` error |
| IonLexerProps.ControlByTabs | Daf.Core.Sdk/Ion/Reader/FileToIonNodeReader.cs:86-98 | a valid line is classified by its tab count |
| IonLexerProps.ControlPush | Daf.Core.Sdk/Ion/Reader/FileToIonNodeReader.cs:88-91 | a push directive stacks its tab count plus the current offset |
| IonLexerProps.ControlPop | Daf.Core.Sdk/Ion/Reader/FileToIonNodeReader.cs:92-93 | a pop directive drops the top of the stack, and an empty stack is an `InvalidOperation` error |
| IonLexerProps.ClassifyOther | Daf.Core.Sdk/Ion/Reader/FileToIonNodeReader.cs:98-100 | `ClassifyLine`: a line that is no directive is a node line at the offset level when it names a node, and otherwise an attribute line |
| IonLexerProps.ControlNodeLine | Daf.Core.Sdk/Ion/Reader/FileToIonNodeReader.cs:86-100 | the same for a whole valid line: node line when it names a node, otherwise an attribute line |
| IonLexerProps.SkippedLines | Daf.Core.Sdk/Ion/Reader/FileToIonNodeReader.cs:79-96 | outside quotes and text blocks, comments and directives leave the lexer state unchanged apart from the stack, and a control error stops the scan |
| IonLexerProps.NodeLineStartsNode | Daf.Core.Sdk/Ion/Reader/FileToIonNodeReader.cs:100-114 | a node line that does not end the scan finishes the current valid node and starts a new one at the line's level, with the root flag set on the root line and the context reset |
| IonLexerProps.CharRules | Daf.Core.Sdk/Ion/Reader/FileToIonNodeReader.cs:147-175 | `ScanChar` through its character effects: an unquoted character finishes at most one part; ':' in the name reads the name; '=' in an attribute name starts its value; white space ends a value or, after a name, the name part |
| IonLexerProps.CommentSignEndsLine | Daf.Core.Sdk/Ion/Reader/FileToIonNodeReader.cs:150-154 | `ScanChar`: an unquoted '#' outside a value and a text block clears the buffer and ends the line |
| IonLexerProps.OpenValueClosedAtEndOfLine | Daf.Core.Sdk/Ion/Reader/FileToIonNodeReader.cs:211-229 | a value still open at the end of a line is closed there, and the context goes back to attribute names |
| IonLexerProps.FinishPartKeepsFrame | Daf.Core.Sdk/Ion/Reader/FileToIonNodeReader.cs:177-207 | finishing a part never changes the finished nodes, the indentation stack, or the current node's level, line, root flag and validity |
| IonLexerProps.ScanCharsKeepsFrame | Daf.Core.Sdk/Ion/Reader/FileToIonNodeReader.cs:117-209 | reading a line's characters never changes those either |
| IonLexerProps.ScanLineKeepsRootFirst | Daf.Core.Sdk/Ion/Reader/FileToIonNodeReader.cs:117-234 | `ScanLine`: reading a line keeps the first node the root |
| IonLexerProps.StartKeepsRootFirst | Daf.Core.Sdk/Ion/Reader/FileToIonNodeReader.cs:78-114 | the control step of a line keeps the first node the root, unless it stops the scan |
| IonLexerProps.NodeStartKeepsRootFirst | Daf.Core.Sdk/Ion/Reader/FileToIonNodeReader.cs:100-114 | starting a node keeps the first node the root |
| IonLexerProps.LineStepKeepsRootFirst | Daf.Core.Sdk/Ion/Reader/FileToIonNodeReader.cs:74-235 | a whole pass of the line loop keeps the first node the root |
| IonLexerProps.ScanLinesKeepsRootFirst | Daf.Core.Sdk/Ion/Reader/FileToIonNodeReader.cs:74-238 | the whole line loop keeps the first node the root |
| IonLexerProps.FlatListStartsWithRoot | Daf.Core.Sdk/Ion/Reader/FileToIonNodeReader.cs:66-112 | `ParseToFlatSpec`: when the root line is a node line, the first node read is the root node |
| IonLexerProps.StopsAtNextTopLevelNode | Daf.Core.Sdk/Ion/Reader/FileToIonNodeReader.cs:100-103 | once a node is open, a further level-0 node line ends reading silently, with the state unchanged |
| IonTreeProps.SearchParentSameLevels | Daf.Core.Sdk/Ion/Reader/FileToIonNodeReader.cs:264-274 | the parent search depends on the nodes' levels only |
| IonTreeProps.PartiallyLinkedKeepsFields | Daf.Core.Sdk/Ion/Reader/FileToIonNodeReader.cs:248-278 | linking keeps each node's level, line, name, root flag and attributes |
| IonTreeProps.LinkOne | Daf.Core.Sdk/Ion/Reader/FileToIonNodeReader.cs:260-274 | `Connect`: connecting a node to its parent sets its parent and appends it to that parent's children, and changes nothing else |
| IonTreeProps.LinkNone | Daf.Core.Sdk/Ion/Reader/FileToIonNodeReader.cs:253-257 | `Connect`: a node at level 0 or without a parent changes nothing |
| IonTreeProps.LinkStep | Daf.Core.Sdk/Ion/Reader/FileToIonNodeReader.cs:250-257 | one pass of `BuildTree`: a node above level 0 is connected, or it fails when it has no parent and is not the root |
| IonTreeProps.BuildTreeFails | Daf.Core.Sdk/Ion/Reader/FileToIonNodeReader.cs:276-277 | `BuildTreeSpec` fails exactly when some node above level 0 that is not the root has no earlier node one level up |
| IonTreeProps.FullyLinked | Daf.Core.Sdk/Ion/Reader/FileToIonNodeReader.cs:248-258 | after linking, each node's parent is its expected parent and its children are the nodes expecting it, in order |
| IonTreeProps.ChildrenAreExpected | Daf.Core.Sdk/Ion/Reader/FileToIonNodeReader.cs:264-273 | a node is among another's children exactly when that node is its expected parent |
| IonTreeProps.BuildTreeParents | Daf.Core.Sdk/Ion/Reader/FileToIonNodeReader.cs:260-274 | on success every node keeps its fields and gets its nearest earlier node one level up as parent |
| IonTreeProps.BuildTreeChildren | Daf.Core.Sdk/Ion/Reader/FileToIonNodeReader.cs:269-270 | on success a node's children are, in document order, exactly the nodes whose parent it is |
| IonTreeProps.BuildTreeWellLinked | Daf.Core.Sdk/Ion/Reader/FileToIonNodeReader.cs:248-258 | on success the tree is well linked: every link is in range, and each child comes after its parent |
| IonTreeProps.FlatNodesUnlinked | Daf.Core.Sdk/Ion/Reader/FileToIonNodeReader.cs:240-245 | the flat list has at least one node, and no node has links yet |
| IonTreeProps.ReaderParseShape | Daf.Core.Sdk/Ion/Reader/FileToIonNodeReader.cs:46-51 | `ReaderParseSpec`: a successful `Parse` yields at least one node, and the nodes form a well-linked tree |
| IonFileReader.FileToIonNodeReader.constructor | Daf.Core.Sdk/Ion/Reader/FileToIonNodeReader.cs:40-44 | keeps the lines and the root name; both flags are false and the context is the node name |
| IonFileReader.FileToIonNodeReader.GetLevel | Daf.Core.Sdk/Ion/Reader/FileToIonNodeReader.cs:294-306 | the tab count at the start of the line |
| IonFileReader.FileToIonNodeReader.TrackQuotes | Daf.Core.Sdk/Ion/Reader/FileToIonNodeReader.cs:317-342 | the flags after one line are those of the quote and text-block scan; the context is untouched |
| IonFileReader.FileToIonNodeReader.IsRootLine | Daf.Core.Sdk/Ion/Reader/FileToIonNodeReader.cs:344-356 | the per-line root test on the current flags |
| IonFileReader.FileToIonNodeReader.GetRootNodeLine | Daf.Core.Sdk/Ion/Reader/FileToIonNodeReader.cs:308-360 | the result and the final flags are those of the root search from line 0 with cleared flags |
| IonFileReader.FileToIonNodeReader.SwitchContext | Daf.Core.Sdk/Ion/Reader/FileToIonNodeReader.cs:147-175 | the context switch and read flags of one unquoted character; the quote flags are untouched |
| IonFileReader.FileToIonNodeReader.StoreValue | Daf.Core.Sdk/Ion/Reader/FileToIonNodeReader.cs:186-201 | closing a value adds the cleaned attribute to the current node, or fails as cleaning does |
| IonFileReader.FileToIonNodeReader.StoreNodeName | Daf.Core.Sdk/Ion/Reader/FileToIonNodeReader.cs:202-207 | the buffer up to its ':' becomes the cleaned node name, or fails as cleaning does |
| IonFileReader.FileToIonNodeReader.FinishRead | Daf.Core.Sdk/Ion/Reader/FileToIonNodeReader.cs:177-207 | finishes at most one part, as the specification of one character does |
| IonFileReader.FileToIonNodeReader.ReadChar | Daf.Core.Sdk/Ion/Reader/FileToIonNodeReader.cs:136-208 | one character, as the lexer specification reads it |
| IonFileReader.FileToIonNodeReader.ScanCharacters | Daf.Core.Sdk/Ion/Reader/FileToIonNodeReader.cs:117-209 | the character loop over a line, as the lexer specification reads it, text-block markers included |
| IonFileReader.FileToIonNodeReader.FinishLine | Daf.Core.Sdk/Ion/Reader/FileToIonNodeReader.cs:211-234 | the end-of-line handling: closes an open value and keeps line breaks in a text block |
| IonFileReader.FileToIonNodeReader.ReadLine | Daf.Core.Sdk/Ion/Reader/FileToIonNodeReader.cs:117-234 | one line's characters followed by its end |
| IonFileReader.FileToIonNodeReader.ControlLine | Daf.Core.Sdk/Ion/Reader/FileToIonNodeReader.cs:78-98 | the control verdict for a line: comment, directive with the new stack, node line, other line, or error |
| IonFileReader.FileToIonNodeReader.Classify | Daf.Core.Sdk/Ion/Reader/FileToIonNodeReader.cs:86-98 | the directive, node-line or other-line decision for a tab-indented line |
| IonFileReader.FileToIonNodeReader.StartLine | Daf.Core.Sdk/Ion/Reader/FileToIonNodeReader.cs:78-115 | the control logic at the start of a line, with the finished nodes kept in step with the specification's drafts |
| IonFileReader.FileToIonNodeReader.StartNode | Daf.Core.Sdk/Ion/Reader/FileToIonNodeReader.cs:100-114 | stops at a second top-level node, or finishes the current node and starts a new one |
| IonFileReader.FileToIonNodeReader.ParseLine | Daf.Core.Sdk/Ion/Reader/FileToIonNodeReader.cs:74-235 | one pass of the line loop: stop, continue, or the specification's error |
| IonFileReader.FileToIonNodeReader.ReadNodes | Daf.Core.Sdk/Ion/Reader/FileToIonNodeReader.cs:53-238 | the line loop from the root line on yields the nodes the specification reads, the last node included |
| IonFileReader.FileToIonNodeReader.ParseToFlat | Daf.Core.Sdk/Ion/Reader/FileToIonNodeReader.cs:53-246 | equals the flat-parse specification; on success the quote and text-block flags and the context are those the scan ends with; when the root search fails, the context is unchanged and the flags are those the search ends with |
| IonFileReader.FileToIonNodeReader.ConvertNodes | Daf.Core.Sdk/Ion/Reader/FileToIonNodeReader.cs:240-245 | converts each node read into an `IonNode`, as `ConvertAll` specifies |
| IonFileReader.FileToIonNodeReader.ConnectToParent | Daf.Core.Sdk/Ion/Reader/FileToIonNodeReader.cs:260-278 | links one node to its nearest earlier node one level up, or fails as the specification says |
| IonFileReader.FileToIonNodeReader.BuildTree | Daf.Core.Sdk/Ion/Reader/FileToIonNodeReader.cs:248-258 | links every node above level 0, in document order |
| IonFileReader.FileToIonNodeReader.Parse | Daf.Core.Sdk/Ion/Reader/FileToIonNodeReader.cs:46-51 | the flat parse followed by the linking, with the reader's flags and context afterwards as for `ParseToFlat`; the tree's properties are in `IonTreeProps` |
| IonValidator.ValidateLeadingWhitespaceNode | Daf.Core.Sdk/Ion/Validator.cs:50-65 | passes exactly when every white-space character before the first other character is a tab; otherwise a `TextFileParser` error at that line |
| IonValidator.ValidateRootNode | Daf.Core.Sdk/Ion/Validator.cs:67-87 | passes exactly when there is one root class and it has the expected name; otherwise `InvalidRootNode` |
| IonValidator.GetTypeValidationRules | Daf.Core.Sdk/Ion/Validator.cs:160-173 | the names of the type's required properties |
| IonValidator.DuplicateNames | Daf.Core.Sdk/Ion/Validator.cs:107-116 | exactly the attribute names that occur at least twice, each listed once |
| IonValidator.CheckNode | Daf.Core.Sdk/Ion/Validator.cs:16-35 | passes exactly when all four checks pass; otherwise the error of the first failing check, in the order required, duplicates, children, attributes |
| IonValidator.PropertyNamed | Daf.Core.Sdk/Ion/Validator.cs:126-133 | whether some property of the type has the name |
| IonValidator.ValidateRequiredProperties | Daf.Core.Sdk/Ion/Validator.cs:89-106 | passes exactly when each required name is an attribute's or a child's name; otherwise `RequiredFieldNotFound` |
| IonValidator.ValidateChildNodesAreProperties | Daf.Core.Sdk/Ion/Validator.cs:118-139 | for a type that is not a list, passes exactly when every child names a property; otherwise `InvalidNode` |
| IonValidator.ValidateAttributesExistsInAssembly | Daf.Core.Sdk/Ion/Validator.cs:141-158 | passes exactly when every attribute names a property; otherwise `InvalidAttribute` |
| IonValidator.ValidateNode | Daf.Core.Sdk/Ion/Validator.cs:16-35 | the four checks, in order, as `CheckNode` states |
| IonSchema.FindClass | Daf.Core.Sdk/Ion/Reader/IonNodeToObjectParser.cs:42 | a class with that name from the declarations, or none exists |
| IonSchema.FindProperty | Daf.Core.Sdk/Ion/Reader/IonNodeToObjectParser.cs:137-139 | a property with that name, or none exists; when the name repeats, the first one (the lookup `GetProperty` uses once the name is known to be unique) |
| IonSchema.GetProperty | Daf.Core.Sdk/Ion/Reader/IonNodeToObjectParser.cs:137 | `AmbiguousMatch` exactly when two properties share the name; otherwise the property with that name, or none |
| IonSchema.GetAllBaseTypes | Daf.Core.Sdk/Ion/Reader/IonNodeToObjectParser.cs:164-175 | the chain of base classes: it starts at the direct base, each element is the base of the one before, every element is a class, it is no longer than the number of classes, and it stops at a class without base |
| IonSchema.GetInheritingTypes | Daf.Core.Sdk/Ion/Reader/IonNodeToObjectParser.cs:223-252 | a type that is no class has none; every type found is a class, and the direct subclasses come first, in schema order |
| IonSchema.BaseChain | Daf.Core.Sdk/Ion/Reader/IonNodeToObjectParser.cs:164-175 | the chain of base classes, nearest first, each the base of the one before; it ends where a class has no declared base |
| IonSchema.SubclassesDeriveFromOneOf | Daf.Core.Sdk/Ion/Reader/IonNodeToObjectParser.cs:238-241 | each class one level further down derives directly from one of the current level's classes |
| IonSchema.RootClasses | Daf.Core.Sdk/Ion/Validator.cs:70-80 | exactly the classes marked as root |
| IonSchema.RequiredProperties | Daf.Core.Sdk/Ion/Validator.cs:164-170 | exactly the names of the required properties |
| IonBinderSpec.RootType | Daf.Core.Sdk/Ion/Reader/IonNodeToObjectParser.cs:40-43 | the root's type is the class named like the node; no such class gives `InvalidOperation` (`First()` on no match) |
| IonBinderSpec.ResolveType | Daf.Core.Sdk/Ion/Reader/IonNodeToObjectParser.cs:39-47 | the root node resolves to the root class named like it, or fails with `InvalidOperation`; any other node without a parent type is `InvalidNode` on its line, and its other failures are `InvalidNode` or `AmbiguousMatch` |
| IonBinderSpec.FirstNamed | Daf.Core.Sdk/Ion/Reader/IonNodeToObjectParser.cs:194-201 | the first type with the node's name, or none has it |
| IonBinderSpec.GetTypeByNodeName | Daf.Core.Sdk/Ion/Reader/IonNodeToObjectParser.cs:177-221 | no type to search is `InvalidNode`; under a list, the element type or the first inheriting type named like the node, and an error exactly when none is; otherwise the type of the property named like the node, `AmbiguousMatch` exactly when that name is declared twice (`Type.GetProperty` at line 209), and `InvalidNode` exactly when no property has it |
| IonBinderSpec.NextLevelStaysIn | Daf.Core.Sdk/Ion/Reader/IonNodeToObjectParser.cs:238-241 | one more level of subclasses stays within any set that is closed under subclassing |
| IonBinderSpec.DeeperLevelsStayIn | Daf.Core.Sdk/Ion/Reader/IonNodeToObjectParser.cs:233-251 | every deeper level stays within such a set |
| IonBinderSpec.InheritingTypesAreDescendants | Daf.Core.Sdk/Ion/Reader/IonNodeToObjectParser.cs:223-252 | `GetInheritingTypes` returns only classes, and only ones that derive from the base |
| IonBinderSpec.InheritingTypesComplete | Daf.Core.Sdk/Ion/Reader/IonNodeToObjectParser.cs:223-252 | every class that has the base among its base types (`GetAllBaseTypes`), at any depth, is among the types `GetInheritingTypes` returns |
| IonBinderSpec.DeeperLevelsComplete | Daf.Core.Sdk/Ion/Reader/IonNodeToObjectParser.cs:233-251 | a class linked by declared bases to a class of the current level, within the levels left, is found by the recursive search |
| IonBinderSpec.InitialFields | Daf.Core.Sdk/Ion/Reader/IonNodeToObjectParser.cs:51 | a new object has exactly the fields its constructor initializes |
| IonBinderSpec.CreateInstance | Daf.Core.Sdk/Ion/Reader/IonNodeToObjectParser.cs:51-56 | a class gives a new object of that class, a list gives an empty list, and anything else is `InvalidNode` |
| IonBinderSpec.ParseStringValue | Daf.Core.Sdk/Ion/Reader/IonNodeToObjectParser.cs:254-310 | a string is kept; a bool gives a bool or `AttributeCast`; an enum succeeds exactly on a member name; any other type uses its `Parse`, where a missing method or a null gives `AttributeCast` and a throw gives `TargetInvocation` |
| IonBinderSpec.UpperMatchesWord | Daf.Core.Sdk/Ion/Reader/IonNodeToObjectParser.cs:264-267 | the upper-cased text equals a word exactly when it spells the word in any mix of cases |
| IonBinderSpec.BoolIgnoresCase | Daf.Core.Sdk/Ion/Reader/IonNodeToObjectParser.cs:262-270 | true and false are accepted in any mix of cases; any other text is an error |
| IonBinderSpec.SetPropertyValue | Daf.Core.Sdk/Ion/Reader/IonNodeToObjectParser.cs:128-162 | a name declared twice is `AmbiguousMatch`; otherwise it succeeds exactly when the instance is an object with the property, and the property is writable or a read-only list receiving a list; a writable property gets the value; a read-only list gets the items appended; other fields are untouched; the other failure is `Parser` |
| IonBinderSpec.FindPropertyUnique | Daf.Core.Sdk/Ion/Reader/IonNodeToObjectParser.cs:137 | with unique names, the lookup finds each property by its own name |
| IonBinderSpec.FindPropertyFirst | Daf.Core.Sdk/Ion/Reader/IonNodeToObjectParser.cs:137 | the lookup finds the first property with a name |
| IonBinderSpec.MatchingProperty | Daf.Core.Sdk/Ion/Reader/IonNodeToObjectParser.cs:63-66 | a property named like the attribute, or none exists |
| IonBinderSpec.BindAttributes | Daf.Core.Sdk/Ion/Reader/IonNodeToObjectParser.cs:61-73 | keeps the class and leaves every field no attribute names as it was; a type without properties is untouched |
| IonBinderSpec.AttributesMarkSupplied | Daf.Core.Sdk/Ion/Reader/IonNodeToObjectParser.cs:58-67 | after the loop a name counts as supplied exactly when some attribute carries it and the type has such a property |
| IonBinderSpec.AttributeAssigned | Daf.Core.Sdk/Ion/Reader/IonNodeToObjectParser.cs:61-73 | the last attribute naming a writable property leaves that property holding the attribute's converted value |
| IonBinderSpec.AssignChild | Daf.Core.Sdk/Ion/Reader/IonNodeToObjectParser.cs:92-98 | keeps the class and leaves properties not visited as they were |
| IonBinderSpec.ChildAssigned | Daf.Core.Sdk/Ion/Reader/IonNodeToObjectParser.cs:92-98 | every writable property named like the child or like one of its base classes holds the child afterwards |
| IonBinderSpec.AssignChildKeeps | Daf.Core.Sdk/Ion/Reader/IonNodeToObjectParser.cs:92-98 | the property loop for one child keeps every field that no receiving property names |
| IonBinderSpec.AppendItem | Daf.Core.Sdk/Ion/Reader/IonNodeToObjectParser.cs:85-89 | only a list grows: its items are the old items in order followed by the item; any other instance is returned unchanged |
| IonBinderSpec.BindChildren | Daf.Core.Sdk/Ion/Reader/IonNodeToObjectParser.cs:76-100 | the child loop keeps an object's class |
| IonBinderSpec.BindChildrenStep | Daf.Core.Sdk/Ion/Reader/IonNodeToObjectParser.cs:76-99 | one turn of the child loop marks that child's node name supplied and goes on with the next child |
| IonBinderSpec.ChildrenMarkSupplied | Daf.Core.Sdk/Ion/Reader/IonNodeToObjectParser.cs:76-78 | the child loop adds exactly the children's node names to the supplied names, in document order, after those supplied before |
| IonBinderSpec.ChildrenKeep | Daf.Core.Sdk/Ion/Reader/IonNodeToObjectParser.cs:76-99 | for a node that is no list, a field that no child fills keeps its value, so attribute values survive the child loop |
| IonBinderSpec.ChildFilled | Daf.Core.Sdk/Ion/Reader/IonNodeToObjectParser.cs:76-99 | for a node that is no list, a writable property filled by a child and by no later child holds that child's materialized instance |
| IonBinderSpec.DefaultStep | Daf.Core.Sdk/Ion/Reader/IonNodeToObjectParser.cs:105-121 | a supplied property is left alone |
| IonBinderSpec.ApplyDefaults | Daf.Core.Sdk/Ion/Reader/IonNodeToObjectParser.cs:103-123 | keeps the class and leaves properties not visited as they were |
| IonBinderSpec.DefaultStepEffect | Daf.Core.Sdk/Ion/Reader/IonNodeToObjectParser.cs:105-121 | for one unsupplied property: a writable list becomes empty, a writable property with a default gets it, and a read-only list keeps its items |
| IonBinderSpec.DefaultsApplied | Daf.Core.Sdk/Ion/Reader/IonNodeToObjectParser.cs:103-123 | after the loop, every unsupplied writable list is empty and every unsupplied writable property with a default holds the default |
| IonBinderSpec.DefaultStepKeeps | Daf.Core.Sdk/Ion/Reader/IonNodeToObjectParser.cs:105 | one default step touches no other property and no supplied one |
| IonBinderSpec.DefaultsKeep | Daf.Core.Sdk/Ion/Reader/IonNodeToObjectParser.cs:103-123 | supplied properties, and unsupplied read-only lists, end the loop as they started it |
| IonBinderSpec.ValidatedBeforeCreated | Daf.Core.Sdk/Ion/Reader/IonNodeToObjectParser.cs:49-51 | once the node's type is known, a failed check is the node's error; a materialized node passed its check |
| IonBinderSpec.MaterializedClass | Daf.Core.Sdk/Ion/Reader/IonNodeToObjectParser.cs:39-51 | a node of a class type becomes an object of that class, and the root's class is named like the root node |
| IonBinderSpec.ListChildrenAppended | Daf.Core.Sdk/Ion/Reader/IonNodeToObjectParser.cs:84-89 | the child loop of a list appends, in order, each child's materialized value |
| IonBinderSpec.ListNodeHoldsChildren | Daf.Core.Sdk/Ion/Reader/IonNodeToObjectParser.cs:76-89 | a list node becomes the list of its children's values, in document order |
| IonBinderSpec.Materialize | Daf.Core.Sdk/Ion/Reader/IonNodeToObjectParser.cs:33-126 | an instance is produced only for a node whose type resolves and passes the validator for that type |
| IonObjectParser.IonNodeToObjectParser.constructor | Daf.Core.Sdk/Ion/Reader/IonNodeToObjectParser.cs:22-25 | keeps the schema |
| IonObjectParser.IonNodeToObjectParser.Parse | Daf.Core.Sdk/Ion/Reader/IonNodeToObjectParser.cs:27-30 | materializes the root with no parent type |
| IonObjectParser.IonNodeToObjectParser.Instantiate | Daf.Core.Sdk/Ion/Reader/IonNodeToObjectParser.cs:33-126 | the recursive instantiation equals `Materialize`, whose properties are the lemmas above |
| IonObjectParser.IonNodeToObjectParser.SetAttributes | Daf.Core.Sdk/Ion/Reader/IonNodeToObjectParser.cs:58-73 | the attribute loop equals `BindAttributes` |
| IonObjectParser.IonNodeToObjectParser.PropertyIndex | Daf.Core.Sdk/Ion/Reader/IonNodeToObjectParser.cs:63-66 | the position of the first property named like the attribute, or the end |
| IonObjectParser.IonNodeToObjectParser.ConnectChildren | Daf.Core.Sdk/Ion/Reader/IonNodeToObjectParser.cs:76-100 | the child loop equals `BindChildren` |
| IonObjectParser.IonNodeToObjectParser.AssignToProperties | Daf.Core.Sdk/Ion/Reader/IonNodeToObjectParser.cs:92-98 | the property loop for a child equals `AssignChild` |
| IonObjectParser.IonNodeToObjectParser.SetDefaults | Daf.Core.Sdk/Ion/Reader/IonNodeToObjectParser.cs:103-123 | the default loop equals `ApplyDefaults` |
| IonReaderFacade.ReaderYieldsRootObject | Daf.Core.Sdk/Ion/Reader/IonReader.cs:26-32 | a wrong or missing root class is `InvalidRootNode`; success yields an object of a declared class named like the document's first node, which is the root node |
| IonReaderFacade.RootClassIs | Daf.Core.Sdk/Ion/Validator.cs:67-87 | when it holds, a root class with the expected name exists and every root class has that name |
| IonReaderFacade.ReaderResult | Daf.Core.Sdk/Ion/Reader/IonReader.cs:26-32 | a wrong root class is `InvalidRootNode`; then a failing file read gives its error; a result needs both the root check and the file read to succeed |
| IonReaderFacade.RootLineExists | Daf.Core.Sdk/Ion/Validator.cs:37-48 | false exactly when every line is passed over; true only when the first decided line is a match; any other error is that of the first decided line; the reader's context is unchanged, and its flags are those the root search ends with |
| IonReaderFacade.IonReader.constructor | Daf.Core.Sdk/Ion/Reader/IonReader.cs:19-24 | a fresh file reader for the lines and the root class name, and an object parser over the schema |
| IonReaderFacade.IonReader.Parse | Daf.Core.Sdk/Ion/Reader/IonReader.cs:26-32 | the root class check, then the file reader, then the object parser, as `ReaderResult` specifies; a refused root class leaves the file reader untouched, and otherwise its flags and context end as the file reader's `Parse` leaves them |
| IonReaderFacade.IonReader.RootNodeExistInFile | Daf.Core.Sdk/Ion/Reader/IonReader.cs:34-37 | the file reader's answer, with its context unchanged and its flags those the root search ends with |
| IonReaderFacade.ExistenceCheckThenParse | Daf.Core.Sdk/Ion/Reader/IonReader.cs:26-37 | a reader first asked whether the root line exists then parses exactly as a fresh reader does |
| SdkProperties.SplitHasTwo | Daf.Core.Sdk/Properties.cs:46-48 | an argument splits into at least two pieces exactly when it has a '=' |
| SdkProperties.Key | Daf.Core.Sdk/Properties.cs:46-48 | the key is a prefix of the argument without '=' |
| SdkProperties.Value | Daf.Core.Sdk/Properties.cs:46-48 | the value contains no '=' and comes after the key and its '=' |
| SdkProperties.EntryTokens | Daf.Core.Sdk/Properties.cs:46-48 | `key=value` followed by nothing or by another '=' sets that key to that value, so "a=b=c" sets a to b |
| SdkProperties.ApplySettings | Daf.Core.Sdk/Properties.cs:39-50 | succeeds exactly when every argument has a '='; the failure is `IndexOutOfRange`; existing keys are never removed |
| SdkProperties.SettingsStep | Daf.Core.Sdk/Properties.cs:44-48 | an argument holding '=' stores its value under its key before the rest are read |
| SdkProperties.SettingsKeepUntouched | Daf.Core.Sdk/Properties.cs:48 | a key no argument names keeps its value, or stays absent |
| SdkProperties.SettingsLastWins | Daf.Core.Sdk/Properties.cs:44-49 | the last argument with a given key decides that key's value |
| SdkProperties.SettingsStopAtMalformed | Daf.Core.Sdk/Properties.cs:44-48 | the first argument without '=' fails the call and keeps what the arguments before it set |
| SdkProperties.Properties.constructor | Daf.Core.Sdk/Properties.cs:13-16 | starts with an empty dictionary and no paths |
| SdkProperties.Properties.SetOtherProperties | Daf.Core.Sdk/Properties.cs:39-50 | a missing list is `ArgumentNull`; otherwise the dictionary and the outcome are those of `ApplySettings`; the other settings are untouched |
| SdkProperties.PropertiesHolder.Instance | Daf.Core.Sdk/Properties.cs:18-27 | creates a fresh, empty settings object on first use, and afterwards always returns the same one |
| SdkProperties.PropertiesHolder.InstanceIsShared | Daf.Core.Sdk/Properties.cs:18-27 | two reads of `Instance` give the same object |

## Left out

- File I/O. `File.ReadAllLines` becomes the sequence of lines given to the reader's constructor. The reflection calls (`GetTypes`, `GetProperties`, `Activator.CreateInstance`, `GetCustomAttribute`) become the explicit `Schema`.
- Exception messages, the assembly name written into a `ParserException`, and the thread-culture change in `Instantiate`. Errors are kinds carrying the document line, nothing more.
- The `Environment.NewLine` appended inside text blocks is fixed to "\n".
- IonText.ToUpper: only the ASCII letters are upper-cased, because the invariant culture's full case mapping is not modelled.
- IonText.IsWhiteSpace: fixed to the set of characters .NET classes as white space.
- IonModel.NewIonNode: requires the temporary node to have no parent or children. Nothing in the reader ever sets them, so the recursive copy of links at `IonNode.cs:31-42` is never run.
- Objects are values, not references. Aliasing between instances, and a list mutated after it was assigned, are not modelled. A read-only list property is modelled as a field whose items are appended to.
- IonBinderSpec.CreateInstance: a node whose resolved type is a scalar (neither class nor list) gives `InvalidNode`. `Activator.CreateInstance` would produce a default value, or throw for abstract classes and types without a parameterless constructor; those failures are not modelled.
- The own .NET properties of `List<T>` (`Capacity`, `Count`) are not modelled: a list type has no properties.
- A class's properties are its full reflected property list, inherited ones included, as `GetProperties` returns them.
- The null-type check at the start of `Validator.ValidateNode` is dead in the reader, because `GetTypeByNodeName` and `First()` never return null. It is not modelled.
- IonBinderSpec.ParseStringValue: `Enum.Parse` is modelled as an exact match on member names. Numeric and comma-separated forms are not modelled. A scalar type's `Parse` is a function of the schema that returns a value, "no method", "null" or "threw".
- A failed `SetValue` on a type mismatch (an `ArgumentException`) is not modelled: assignment never checks the value's type.
- IonReaderFacade.IonReader.Parse: the final cast to `TRootNodeType` is not modelled. The object returned is the root value.
- IonBinderSpec.RootType: the root's class is looked up among the classes only, not among enums or scalar types.
- IonSchema.BaseChain: `System.Object` and other base types outside the schema are not listed, and the chain follows at most the given number of links.
- IonSchema.GetAllBaseTypes: `System.Object` and base types declared outside the plugin assembly are not returned; the chain stops at the last declared class. A child is therefore never assigned to a property named after such a type (`IonNodeToObjectParser.cs:94`). The depth bound is the number of classes, which an acyclic hierarchy never reaches.
- IonSchema.GetInheritingTypes: the search is bounded by the number of classes, which an acyclic hierarchy never reaches, so within that bound it returns exactly the deriving classes (`InheritingTypesAreDescendants`, `InheritingTypesComplete`). The order within a level follows the declaration order, as `assembly.GetTypes()` is assumed to list types.
- The reader marks the child's own node name as supplied, not the base-type name under which the child may have been assigned. The model follows the code.
- IonLexerSpec.CleanAttributeString: the `TextFileParserException` it raises carries no document line. The model gives it line 0.
- Concurrency: the `Properties` singleton is not thread-safe in the source, and the model has one caller. The static `_instance` field is the `instance` field of a holder object.
- IonSchema.GetProperty: the lemmas about assignment, defaults and child filling (`AttributeAssigned`, `ChildAssigned`, `ChildFilled`, `DefaultsApplied`, `DefaultsKeep`) are stated for classes whose property names are unique. A repeated name (a property hidden with `new`) is modelled as the `AmbiguousMatch` that `Type.GetProperty` throws, not proved about further.
- Properties.SetOtherProperties: a null element inside the argument list (a `NullReferenceException`) is not modelled, because the strings are never null.
