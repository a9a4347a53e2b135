/** The file reader: a stateful object over the document's lines that finds the root line,
    lexes the lines into a flat node list and links that list into a tree. Each method is
    proved to compute what the matching function of `IonLexerSpec` describes. */
module IonFileReader {
  import opened Wrappers
  import opened IonText
  import opened IonModel
  import opened IonValidator
  import opened IonLexerSpec
  import opened IonTreeProps

  /** What the control logic leaves to do with a line. */
  datatype LineAction = SkipLine | StopReading | ReadCharacters

  /** The control logic's outcome, with the lexer state after it. */
  ghost function Started(a: LineAction, s: Scan): LineStart {
    match a
    case SkipLine => Skip(s)
    case StopReading => Halt
    case ReadCharacters => Begin(s)
  }

  /** The text buffer and the key of the attribute being read. */
  datatype LineBuffer = LineBuffer(sb: string, attrName: Option<string>)

  class FileToIonNodeReader {
    const fileLines: seq<string>
    const rootNodeName: string
    var inQualifiedString: bool
    var inTextBlock: bool
    var context: Context

    /** The lines stand for the file's contents, read once when the reader is made. */
    constructor (fileLines: seq<string>, rootNodeName: string)
      ensures this.fileLines == fileLines && this.rootNodeName == rootNodeName
      ensures !inQualifiedString && !inTextBlock && context == NodeName
    {
      this.fileLines := fileLines;
      this.rootNodeName := rootNodeName;
      inQualifiedString := false;
      inTextBlock := false;
      context := NodeName;
    }

    /** The nodes finished so far, still unlinked, hold the drafts the lexer state records. */
    static ghost predicate Finished(nodes: seq<IonNodeTemp>, drafts: seq<Draft>)
      reads set k | 0 <= k < |nodes| :: nodes[k]
    {
      |nodes| == |drafts| &&
      forall k :: 0 <= k < |nodes| ==>
        nodes[k].Snapshot() == drafts[k] && nodes[k].parent == null && nodes[k].children == []
    }

    /** A finished node joins the finished nodes. */
    static lemma FinishedAppend(nodes: seq<IonNodeTemp>, drafts: seq<Draft>, node: IonNodeTemp)
      requires Finished(nodes, drafts) && node.parent == null && node.children == []
      ensures Finished(nodes + [node], drafts + [node.Snapshot()])
    {
      var nodes', drafts' := nodes + [node], drafts + [node.Snapshot()];
      forall k | 0 <= k < |nodes'|
        ensures nodes'[k].Snapshot() == drafts'[k] && nodes'[k].parent == null && nodes'[k].children == []
      {
        if k < |nodes| {
          assert nodes'[k] == nodes[k] && drafts'[k] == drafts[k];
        }
      }
    }

    /** The lexer state held by this reader, the buffer, the current node and the finished nodes. */
    ghost function State(buf: LineBuffer, current: IonNodeTemp, drafts: seq<Draft>, indents: seq<int>): Scan
      reads this, current
    {
      Scan(inQualifiedString, inTextBlock, context, buf.sb, buf.attrName, current.Snapshot(), drafts, indents)
    }

    /** `GetLevel`: counts the tabs at the start of a line. */
    static method GetLevel(line: string) returns (level: nat)
      ensures level == LeadingTabs(line)
    {
      level := 0;
      var y := 0;
      while y < |line|
        invariant 0 <= y <= |line| && level == y
        invariant forall k :: 0 <= k < y ==> line[k] == '\t'
      {
        if line[y] == '\t' {
          level := level + 1;
        } else {
          break;
        }
        y := y + 1;
      }
    }

    /** The flag tracking of `GetRootNodeLine` over one line: text-block markers are
        recognised anywhere, and a quote outside a text block toggles the quote flag. */
    method TrackQuotes(line: string)
      modifies this
      ensures Flags(inQualifiedString, inTextBlock) == QuoteScan(line, 0, old(Flags(inQualifiedString, inTextBlock)))
      ensures context == old(context)
    {
      ghost var f0 := Flags(inQualifiedString, inTextBlock);
      var y := 0;
      while y < |line|
        invariant 0 <= y <= |line|
        invariant QuoteScan(line, 0, f0) == QuoteScan(line, y, Flags(inQualifiedString, inTextBlock))
        invariant context == old(context)
      {
        var window := GetWindow(line, y);
        if window == TEXT_BLOCK_START {
          inTextBlock := true;
          y := y + 1;
        } else if window == TEXT_BLOCK_END {
          inTextBlock := false;
          y := y + 1;
        }
        var c := line[y];
        if !inTextBlock {
          if c == STRING_SIGN && !inQualifiedString {
            inQualifiedString := true;
          } else if c == STRING_SIGN && inQualifiedString {
            inQualifiedString := false;
          }
        }
        y := y + 1;
      }
    }

    /** The test `GetRootNodeLine` makes of each line after tracking its flags. */
    method IsRootLine(line: string, lineNr: nat) returns (r: Result<bool>)
      ensures r == RootCandidate(line, lineNr, rootNodeName, Flags(inQualifiedString, inTextBlock))
    {
      if !inTextBlock && !inQualifiedString && ContainsNodeName(inQualifiedString, inTextBlock, line) {
        var nodeName :- CleanNodeName(line[..IndexOf(line, NODE_SIGN)], lineNr);
        return Ok(nodeName == rootNodeName);
      }
      return Ok(false);
    }

    /** `GetRootNodeLine`: scans the lines from the top for the root node's line, carrying the
        quote and text-block flags from line to line. */
    method GetRootNodeLine() returns (r: Result<nat>)
      modifies this
      ensures RootSearch(fileLines, rootNodeName, 0, Flags(false, false)) ==
              RootScan(r, Flags(inQualifiedString, inTextBlock))
      ensures context == old(context)
    {
      inQualifiedString := false;
      inTextBlock := false;
      ghost var search := RootSearch(fileLines, rootNodeName, 0, Flags(false, false));
      var i: nat := 0;
      while i < |fileLines|
        invariant i <= |fileLines|
        invariant search == RootSearch(fileLines, rootNodeName, i, Flags(inQualifiedString, inTextBlock))
        invariant context == old(context)
      {
        var line := TrimStart(fileLines[i]);
        TrackQuotes(line);
        var isRoot := IsRootLine(line, i);
        if isRoot.Err? {
          return Err(isRoot.error);
        }
        if isRoot.value {
          inQualifiedString := false;
          return Ok(i);
        }
        i := i + 1;
      }
      return Err(RootNodeNotFound);
    }

    /** The context switches of one unquoted character (the inner `if` chain of the
        `ParseToFlat` character loop); `named` says whether the current node has its name. */
    method SwitchContext(c: char, named: bool)
      returns (readNodeName: bool, readAttributeName: bool, readAttributeValue: bool)
      modifies this
      ensures CharEffectOf(old(context), c, named) ==
              CharEffect(context, readNodeName, readAttributeName, readAttributeValue)
      ensures inQualifiedString == old(inQualifiedString) && inTextBlock == old(inTextBlock)
    {
      readNodeName, readAttributeName, readAttributeValue := false, false, false;
      if c == NODE_SIGN && context == NodeName {
        readNodeName := true;
      }
      if IsWhiteSpace(c) && context == NodeName && named {
        context := AttributeName;
      }
      if IsWhiteSpace(c) && context == AttributeValue {
        context := AttributeName;
        readAttributeValue := true;
      }
      if c == ASSIGNMENT_SIGN && context == AttributeName {
        readAttributeName := true;
        context := AttributeValue;
      }
    }

    /** The buffer, cleaned, is added to the current node as the value of the attribute whose
        key was read last. */
    method StoreValue(buf: LineBuffer, currentNode: IonNodeTemp, ghost drafts: seq<Draft>, ghost indents: seq<int>)
      returns (r: Result<LineBuffer>)
      modifies currentNode
      ensures currentNode.parent == old(currentNode.parent) && currentNode.children == old(currentNode.children)
      ensures r.Err? ==> CloseValue(old(State(buf, currentNode, drafts, indents))) == Err(r.error)
      ensures r.Ok? ==> CloseValue(old(State(buf, currentNode, drafts, indents))) ==
                        Ok(State(r.value, currentNode, drafts, indents))
    {
      var value :- CleanAttributeString(buf.sb);
      currentNode.attributes := currentNode.attributes + [IonAttribute(buf.attrName, value)];
      return Ok(LineBuffer([], buf.attrName));
    }

    /** The buffer, up to its colon and cleaned, becomes the current node's name. */
    method StoreNodeName(lineNr: nat, buf: LineBuffer, currentNode: IonNodeTemp,
                         ghost drafts: seq<Draft>, ghost indents: seq<int>)
      returns (r: Result<LineBuffer>)
      modifies currentNode
      ensures currentNode.parent == old(currentNode.parent) && currentNode.children == old(currentNode.children)
      ensures r.Err? ==> CloseNodeName(old(State(buf, currentNode, drafts, indents)), lineNr) == Err(r.error)
      ensures r.Ok? ==> CloseNodeName(old(State(buf, currentNode, drafts, indents)), lineNr) ==
                        Ok(State(r.value, currentNode, drafts, indents))
    {
      var name :- NodeNameOf(buf.sb, lineNr);
      currentNode.nodeName := Some(name);
      return Ok(LineBuffer([], buf.attrName));
    }

    /** The end of one character's handling in the `ParseToFlat` character loop: the key,
        value or node name the character finished is stored and the buffer cleared. */
    method FinishRead(readNodeName: bool, readAttributeName: bool, readAttributeValue: bool,
                      lineNr: nat, buf: LineBuffer, currentNode: IonNodeTemp,
                      ghost drafts: seq<Draft>, ghost indents: seq<int>)
      returns (r: Result<LineBuffer>)
      modifies currentNode
      ensures currentNode.parent == old(currentNode.parent) && currentNode.children == old(currentNode.children)
      ensures r.Err? ==>
                FinishPart(old(State(buf, currentNode, drafts, indents)),
                           CharEffect(context, readNodeName, readAttributeName, readAttributeValue), lineNr) ==
                Err(r.error)
      ensures r.Ok? ==>
                FinishPart(old(State(buf, currentNode, drafts, indents)),
                           CharEffect(context, readNodeName, readAttributeName, readAttributeValue), lineNr) ==
                Ok(State(r.value, currentNode, drafts, indents))
    {
      if readAttributeName {
        r := Ok(LineBuffer([], Some(TrimEndChar(Trim(buf.sb), ASSIGNMENT_SIGN))));
      } else if readAttributeValue {
        r := StoreValue(buf, currentNode, drafts, indents);
      } else if readNodeName {
        r := StoreNodeName(lineNr, buf, currentNode, drafts, indents);
      } else {
        r := Ok(buf);
      }
    }

    /** One character of the `ParseToFlat` character loop that is not part of a text-block
        marker: it is appended to the buffer and, outside text blocks and quotes, may end the
        line (a comment), finish a key, a value or the node's name. `endOfLine` says that the
        rest of the line is dropped. */
    method ReadChar(c: char, lineNr: nat, buf: LineBuffer, currentNode: IonNodeTemp,
                    ghost drafts: seq<Draft>, ghost indents: seq<int>)
      returns (r: Result<LineBuffer>, endOfLine: bool)
      modifies this, currentNode
      ensures currentNode.parent == old(currentNode.parent) && currentNode.children == old(currentNode.children)
      ensures r.Err? ==> ScanChar(old(State(buf, currentNode, drafts, indents)), c, lineNr) == Err(r.error)
      ensures r.Ok? ==>
                var s := State(r.value, currentNode, drafts, indents);
                ScanChar(old(State(buf, currentNode, drafts, indents)), c, lineNr) ==
                  Ok(if endOfLine then EndLine(s) else Next(s))
    {
      var sb := buf.sb + [c];
      if inTextBlock {
        return Ok(LineBuffer(sb, buf.attrName)), false;
      }
      if c == STRING_SIGN && !inQualifiedString {
        inQualifiedString := true;
      } else if c == STRING_SIGN && inQualifiedString {
        inQualifiedString := false;
      }
      var readNodeName, readAttributeName, readAttributeValue := false, false, false;
      if !inQualifiedString {
        if c == COMMENT_SIGN && context != AttributeValue {
          return Ok(LineBuffer([], buf.attrName)), true;
        }
        readNodeName, readAttributeName, readAttributeValue := SwitchContext(c, currentNode.nodeName.Some?);
      }
      r := FinishRead(readNodeName, readAttributeName, readAttributeValue, lineNr,
                      LineBuffer(sb, buf.attrName), currentNode, drafts, indents);
      endOfLine := false;
    }

    /** The character loop of `ParseToFlat` over one line. */
    method ScanCharacters(line: string, lineNr: nat, buf: LineBuffer, currentNode: IonNodeTemp,
                          ghost drafts: seq<Draft>, ghost indents: seq<int>)
      returns (r: Result<LineBuffer>)
      modifies this, currentNode
      ensures currentNode.parent == old(currentNode.parent) && currentNode.children == old(currentNode.children)
      ensures r.Err? ==> ScanChars(old(State(buf, currentNode, drafts, indents)), line, lineNr, 0) == Err(r.error)
      ensures r.Ok? ==> ScanChars(old(State(buf, currentNode, drafts, indents)), line, lineNr, 0) ==
                        Ok(State(r.value, currentNode, drafts, indents))
    {
      ghost var s0 := State(buf, currentNode, drafts, indents);
      var b := buf;
      var y := 0;
      while y < |line|
        invariant 0 <= y <= |line|
        invariant ScanChars(s0, line, lineNr, 0) == ScanChars(State(b, currentNode, drafts, indents), line, lineNr, y)
        invariant currentNode.parent == old(currentNode.parent) && currentNode.children == old(currentNode.children)
      {
        var window := GetWindow(line, y);
        if window == TEXT_BLOCK_START && !inTextBlock {
          inTextBlock := true;
          y := y + |TEXT_BLOCK_START|;
          continue;
        } else if window == TEXT_BLOCK_END {
          inTextBlock := false;
          y := y + |TEXT_BLOCK_START|;
          continue;
        }
        var next, endOfLine := ReadChar(line[y], lineNr, b, currentNode, drafts, indents);
        if next.Err? {
          return Err(next.error);
        }
        b := next.value;
        if endOfLine {
          return Ok(b);
        }
        y := y + 1;
      }
      return Ok(b);
    }

    /** The end-of-line handling of `ParseToFlat`. */
    method FinishLine(buf: LineBuffer, currentNode: IonNodeTemp, ghost drafts: seq<Draft>, ghost indents: seq<int>)
      returns (r: Result<LineBuffer>)
      modifies this, currentNode
      ensures currentNode.parent == old(currentNode.parent) && currentNode.children == old(currentNode.children)
      ensures r.Err? ==> EndOfLine(old(State(buf, currentNode, drafts, indents))) == Err(r.error)
      ensures r.Ok? ==> EndOfLine(old(State(buf, currentNode, drafts, indents))) ==
                        Ok(State(r.value, currentNode, drafts, indents))
    {
      var b := buf;
      if !inQualifiedString && !inTextBlock {
        if context == AttributeValue {
          b :- StoreValue(b, currentNode, drafts, indents);
          context := AttributeName;
        }
      }
      if inTextBlock {
        b := b.(sb := b.sb + NEW_LINE);
      }
      return Ok(b);
    }

    /** The characters of a line, then its end. */
    method ReadLine(line: string, lineNr: nat, buf: LineBuffer, currentNode: IonNodeTemp,
                    ghost drafts: seq<Draft>, ghost indents: seq<int>)
      returns (r: Result<LineBuffer>)
      modifies this, currentNode
      ensures currentNode.parent == old(currentNode.parent) && currentNode.children == old(currentNode.children)
      ensures r.Err? ==> ScanLine(old(State(buf, currentNode, drafts, indents)), line, lineNr) == Err(r.error)
      ensures r.Ok? ==> ScanLine(old(State(buf, currentNode, drafts, indents)), line, lineNr) ==
                        Ok(Continue(State(r.value, currentNode, drafts, indents)))
    {
      var scanned :- ScanCharacters(line, lineNr, buf, currentNode, drafts, indents);
      r := FinishLine(scanned, currentNode, drafts, indents);
    }

    /** The control logic `ParseToFlat` runs on a line read outside quotes and text blocks. */
    static method ControlLine(line: string, lineNr: nat, extraIndents: seq<int>) returns (r: Result<LineControl>)
      ensures r == LineControlOf(line, lineNr, extraIndents)
    {
      if IsComment(line) {
        return Ok(CommentLine);
      }
      var valid := ValidateLeadingWhitespaceNode(line, lineNr);
      if valid.Fail? {
        return Err(valid.error);
      }
      var level := GetLevel(line);
      r := Classify(line, level, extraIndents);
    }

    /** The directive, node-line or other-line decision for a line with `level` leading tabs. */
    static method Classify(line: string, level: nat, extraIndents: seq<int>) returns (r: Result<LineControl>)
      ensures r == ClassifyLine(line, level, extraIndents)
    {
      if IsParserInstruction(line) {
        if IsIndentationPush(line) {
          return Ok(Directive(extraIndents + [level + GetIndentationOffset(extraIndents)]));
        }
        if |extraIndents| == 0 {
          return Err(InvalidOperation);
        }
        return Ok(Directive(extraIndents[..|extraIndents| - 1]));
      }
      var nodeLevel := level + GetIndentationOffset(extraIndents);
      if ContainsNodeName(false, false, line) {
        return Ok(NodeLine(nodeLevel));
      }
      return Ok(OtherLine);
    }

    /** The control logic at the start of a pass of the `ParseToFlat` line loop: outside
        quotes and text blocks, comments and directives end the pass, a second top-level node
        stops the reading, and a node line finishes the current node and starts a new one. */
    method StartLine(line: string, i: nat, rootNodeStartLine: nat, buf: LineBuffer,
                     currentNode: IonNodeTemp, nodes: seq<IonNodeTemp>, ghost drafts: seq<Draft>,
                     extraIndents: seq<int>)
      returns (r: Result<LineAction>, currentNode': IonNodeTemp, nodes': seq<IonNodeTemp>,
               ghost drafts': seq<Draft>, extraIndents': seq<int>)
      requires Finished(nodes, drafts) && currentNode !in nodes
      requires currentNode.parent == null && currentNode.children == []
      modifies this
      ensures Finished(nodes', drafts') && currentNode' !in nodes'
      ensures currentNode'.parent == null && currentNode'.children == []
      ensures currentNode' == currentNode || fresh(currentNode')
      ensures inQualifiedString == old(inQualifiedString) && inTextBlock == old(inTextBlock)
      ensures r == Ok(StopReading) ==>
                currentNode' == currentNode && drafts' == drafts && extraIndents' == extraIndents &&
                context == old(context)
      ensures r.Err? ==> StartOfLine(old(State(buf, currentNode, drafts, extraIndents)), line, i, rootNodeStartLine) ==
                         Err(r.error)
      ensures r.Ok? ==>
                StartOfLine(old(State(buf, currentNode, drafts, extraIndents)), line, i, rootNodeStartLine) ==
                Ok(Started(r.value, State(buf, currentNode', drafts', extraIndents')))
    {
      currentNode', nodes', drafts', extraIndents' := currentNode, nodes, drafts, extraIndents;
      if !inTextBlock && !inQualifiedString {
        var control :- ControlLine(line, i, extraIndents);
        if control.CommentLine? {
          return Ok(SkipLine), currentNode', nodes', drafts', extraIndents';
        } else if control.Directive? {
          extraIndents' := control.indents;
          return Ok(SkipLine), currentNode', nodes', drafts', extraIndents';
        } else if control.NodeLine? {
          var action;
          action, currentNode', nodes', drafts' :=
            StartNode(control.level, i, rootNodeStartLine, buf, currentNode, nodes, drafts, extraIndents);
          return Ok(action), currentNode', nodes', drafts', extraIndents';
        }
      }
      return Ok(ReadCharacters), currentNode', nodes', drafts', extraIndents';
    }

    /** A node line at `level`: stops reading at a second top-level node, or finishes the
        current node (when valid) and starts a new one. */
    method StartNode(level: int, i: nat, rootNodeStartLine: nat, buf: LineBuffer,
                     currentNode: IonNodeTemp, nodes: seq<IonNodeTemp>, ghost drafts: seq<Draft>,
                     ghost extraIndents: seq<int>)
      returns (action: LineAction, currentNode': IonNodeTemp, nodes': seq<IonNodeTemp>,
               ghost drafts': seq<Draft>)
      requires Finished(nodes, drafts) && currentNode !in nodes
      requires currentNode.parent == null && currentNode.children == []
      modifies this
      ensures Finished(nodes', drafts') && currentNode' !in nodes'
      ensures currentNode'.parent == null && currentNode'.children == []
      ensures currentNode' == currentNode || fresh(currentNode')
      ensures inQualifiedString == old(inQualifiedString) && inTextBlock == old(inTextBlock)
      ensures action != SkipLine
      ensures action == StopReading ==>
                currentNode' == currentNode && drafts' == drafts && context == old(context)
      ensures NodeStart(old(State(buf, currentNode, drafts, extraIndents)), level, i, rootNodeStartLine) ==
              Started(action, State(buf, currentNode', drafts', extraIndents))
    {
      currentNode', nodes', drafts' := currentNode, nodes, drafts;
      if level == 0 && currentNode.isValid {
        return StopReading, currentNode', nodes', drafts';
      }
      if currentNode.isValid {
        FinishedAppend(nodes, drafts, currentNode);
        nodes' := nodes + [currentNode];
        drafts' := drafts + [currentNode.Snapshot()];
      }
      var isRootNode := i == rootNodeStartLine;
      currentNode' := new IonNodeTemp.Create(level, i, isRootNode);
      context := NodeName;
      action := ReadCharacters;
    }

    /** One pass of the `ParseToFlat` line loop over line `i`: the control logic, then the
        characters of the line. `Ok(true)` says that reading stops. */
    method ParseLine(i: nat, rootNodeStartLine: nat, buf: LineBuffer,
                     currentNode: IonNodeTemp, nodes: seq<IonNodeTemp>, ghost drafts: seq<Draft>,
                     extraIndents: seq<int>)
      returns (r: Result<bool>, buf': LineBuffer, currentNode': IonNodeTemp, nodes': seq<IonNodeTemp>,
               ghost drafts': seq<Draft>, extraIndents': seq<int>)
      requires i < |fileLines|
      requires Finished(nodes, drafts) && currentNode !in nodes
      requires currentNode.parent == null && currentNode.children == []
      modifies this, currentNode
      ensures Finished(nodes', drafts') && currentNode' !in nodes'
      ensures currentNode'.parent == null && currentNode'.children == []
      ensures currentNode' == currentNode || fresh(currentNode')
      ensures r.Err? ==>
                ScanLines(old(State(buf, currentNode, drafts, extraIndents)), fileLines, i, rootNodeStartLine) ==
                Err(r.error)
      ensures r == Ok(true) ==>
                ScanLines(old(State(buf, currentNode, drafts, extraIndents)), fileLines, i, rootNodeStartLine) ==
                Ok(State(buf', currentNode', drafts', extraIndents'))
      ensures r == Ok(false) ==>
                ScanLines(old(State(buf, currentNode, drafts, extraIndents)), fileLines, i, rootNodeStartLine) ==
                ScanLines(State(buf', currentNode', drafts', extraIndents'), fileLines, i + 1, rootNodeStartLine)
    {
      buf' := buf;
      ScanLinesStep(old(State(buf, currentNode, drafts, extraIndents)), fileLines, i, rootNodeStartLine);
      var line := fileLines[i];
      var action;
      action, currentNode', nodes', drafts', extraIndents' :=
        StartLine(line, i, rootNodeStartLine, buf, currentNode, nodes, drafts, extraIndents);
      if action.Err? {
        return Err(action.error), buf', currentNode', nodes', drafts', extraIndents';
      }
      if action.value != ReadCharacters {
        return Ok(action.value == StopReading), buf', currentNode', nodes', drafts', extraIndents';
      }
      var ended := ReadLine(line, i, buf', currentNode', drafts', extraIndents');
      if ended.Err? {
        return Err(ended.error), buf', currentNode', nodes', drafts', extraIndents';
      }
      buf' := ended.value;
      return Ok(false), buf', currentNode', nodes', drafts', extraIndents';
    }

    /** The line loop of `ParseToFlat`, from the root node's line to the end of the file or the
        next top-level node, and the last node read appended to the finished ones. */
    method ReadNodes(rootNodeStartLine: nat) returns (r: Result<seq<IonNodeTemp>>, ghost drafts: seq<Draft>)
      modifies this
      ensures r.Err? ==>
                ScanLines(InitialScan(old(context)), fileLines, rootNodeStartLine, rootNodeStartLine) == Err(r.error)
      ensures r.Ok? ==>
                var s := ScanLines(InitialScan(old(context)), fileLines, rootNodeStartLine, rootNodeStartLine);
                s.Ok? && drafts == s.value.nodes + [s.value.current] && Finished(r.value, drafts) &&
                inQualifiedString == s.value.inQuoted && inTextBlock == s.value.inTextBlock &&
                context == s.value.context
    {
      var buf := LineBuffer([], None);
      var nodes: seq<IonNodeTemp> := [];
      drafts := [];
      var currentNode := new IonNodeTemp();
      var extraIndents: seq<int> := [];
      inQualifiedString := false;
      inTextBlock := false;
      ghost var scan := ScanLines(InitialScan(context), fileLines, rootNodeStartLine, rootNodeStartLine);
      ghost var st := State(buf, currentNode, drafts, extraIndents);
      assert st == InitialScan(context);
      var i := rootNodeStartLine;
      while i < |fileLines|
        invariant rootNodeStartLine <= i
        invariant st == State(buf, currentNode, drafts, extraIndents)
        invariant scan == ScanLines(st, fileLines, i, rootNodeStartLine)
        invariant Finished(nodes, drafts) && currentNode !in nodes
        invariant currentNode.parent == null && currentNode.children == [] && fresh(currentNode)
      {
        var stop;
        stop, buf, currentNode, nodes, drafts, extraIndents :=
          ParseLine(i, rootNodeStartLine, buf, currentNode, nodes, drafts, extraIndents);
        st := State(buf, currentNode, drafts, extraIndents);
        if stop.Err? {
          return Err(stop.error), drafts;
        }
        if stop.value {
          assert scan == Ok(st);
          break;
        }
        i := i + 1;
      }
      if i >= |fileLines| {
        ScanLinesAtEnd(st, fileLines, i, rootNodeStartLine);
      }
      assert scan == Ok(st);
      FinishedAppend(nodes, drafts, currentNode);
      nodes := nodes + [currentNode];
      drafts := drafts + [currentNode.Snapshot()];
      return Ok(nodes), drafts;
    }

    /** `ParseToFlat`: finds the root line, reads node after node from it, and converts the
        nodes read. */
    method ParseToFlat() returns (r: Result<seq<IonNode>>)
      modifies this
      ensures r == ParseToFlatSpec(fileLines, rootNodeName, old(context))
      ensures r.Ok? ==>
                var s := ParseToFlatScan(fileLines, rootNodeName, old(context)).value;
                inQualifiedString == s.inQuoted && inTextBlock == s.inTextBlock && context == s.context
      ensures RootSearch(fileLines, rootNodeName, 0, Flags(false, false)).result.Err? ==>
                context == old(context) &&
                Flags(inQualifiedString, inTextBlock) == RootSearch(fileLines, rootNodeName, 0, Flags(false, false)).flags
    {
      var rootNodeStartLine :- GetRootNodeLine();
      var nodes, drafts := ReadNodes(rootNodeStartLine);
      if nodes.Err? {
        return Err(nodes.error);
      }
      r := ConvertNodes(nodes.value, drafts);
    }

    /** The conversion at the end of `ParseToFlat`: every node read becomes an `IonNode`, in
        order; the first node lacking its level, line or root flag fails. */
    static method ConvertNodes(nodes: seq<IonNodeTemp>, ghost drafts: seq<Draft>) returns (r: Result<seq<IonNode>>)
      requires Finished(nodes, drafts)
      ensures r == ConvertAll(drafts)
    {
      var nonNullableNodes: seq<IonNode> := [];
      var k := 0;
      while k < |nodes|
        invariant 0 <= k <= |nodes|
        invariant ConvertAll(drafts[..k]) == Ok(nonNullableNodes)
      {
        assert drafts[..k + 1][..k] == drafts[..k];
        var node :- NewIonNode(nodes[k]);
        nonNullableNodes := nonNullableNodes + [node];
        k := k + 1;
      }
      assert drafts[..k] == drafts;
      return Ok(nonNullableNodes);
    }

    /** `ConnectToParent`: searches back from node `index` for the nearest node one level up,
        and links the two. */
    static method ConnectToParent(nodes: seq<IonNode>, index: nat) returns (r: Result<seq<IonNode>>)
      requires index < |nodes|
      ensures r == Connect(nodes, index)
    {
      var parentLevel := nodes[index].level - 1;
      var parentFound := false;
      var result := nodes;
      var i: int := index;
      while i >= 0
        invariant -1 <= i <= index
        invariant SearchParent(nodes, parentLevel, index) == SearchParent(nodes, parentLevel, i)
        invariant !parentFound && result == nodes
      {
        if parentLevel == nodes[i].level {
          result := result[index := result[index].(parent := Some(i))];
          result := result[i := result[i].(children := result[i].children + [index])];
          parentFound := true;
          break;
        }
        i := i - 1;
      }
      if !parentFound && !nodes[index].isRootNode {
        return Err(TextFileParser(nodes[index].documentLine));
      }
      return Ok(result);
    }

    /** `BuildTree`: connects, in document order, every node above level 0 to its parent. */
    static method BuildTree(flat: seq<IonNode>) returns (r: Result<seq<IonNode>>)
      ensures r == BuildTreeSpec(flat)
    {
      var nodes := flat;
      NothingLinked(flat);
      var i := 0;
      while i < |nodes|
        invariant 0 <= i <= |flat| && |nodes| == |flat|
        invariant nodes == PartiallyLinked(flat, i)
        invariant FirstUnlinked(flat, 0) == FirstUnlinked(flat, i)
      {
        var node := nodes[i];
        LinkStep(flat, i);
        if node.level > 0 {
          var connected := ConnectToParent(nodes, i);
          if connected.Err? {
            return connected;
          }
          nodes := connected.value;
        }
        i := i + 1;
      }
      return Ok(nodes);
    }

    /** `Parse`: the flat node list, linked into a tree whose root is the first node. */
    method Parse() returns (r: Result<seq<IonNode>>)
      modifies this
      ensures r == ReaderParseSpec(fileLines, rootNodeName, old(context))
      ensures ParseToFlatSpec(fileLines, rootNodeName, old(context)).Ok? ==>
                var s := ParseToFlatScan(fileLines, rootNodeName, old(context)).value;
                inQualifiedString == s.inQuoted && inTextBlock == s.inTextBlock && context == s.context
      ensures RootSearch(fileLines, rootNodeName, 0, Flags(false, false)).result.Err? ==>
                context == old(context) &&
                Flags(inQualifiedString, inTextBlock) == RootSearch(fileLines, rootNodeName, 0, Flags(false, false)).flags
    {
      var nodes :- ParseToFlat();
      r := BuildTree(nodes);
    }
  }
}
