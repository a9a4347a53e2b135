/** Properties of the file reader's lexer: root discovery finds the first matching line, the
    control logic of a line (comments, indentation directives, node levels), the rules within
    a line, and the shape of the flat node list (it starts with the root and stops at the next
    top-level node). */
module IonLexerProps {
  import opened Wrappers
  import opened IonText
  import opened IonModel
  import opened IonValidator
  import opened IonLexerSpec

  // ---------------------------------------------------------------- root discovery

  /** What root discovery makes of line `m` when it reaches it with flags `f`; its only error
      is a malformed node name, reported on that line. */
  function Candidate(lines: seq<string>, rootName: string, m: nat, f: Flags): (r: Result<bool>)
    requires m < |lines|
    ensures r.Err? ==> r.error == TextFileParser(m)
  {
    var line := TrimStart(lines[m]);
    RootCandidate(line, m, rootName, QuoteScan(line, 0, f))
  }

  /** The verdict on every line from `i` on, each line reached with the quote and text-block
      flags the lines before it leave: the root's line (`Ok(true)`), another line (`Ok(false)`)
      or a malformed one. */
  function Verdicts(lines: seq<string>, rootName: string, i: nat, f: Flags): (v: seq<Result<bool>>)
    requires i <= |lines|
    ensures |v| == |lines| - i
    ensures forall k :: 0 <= k < |v| ==> v[k] != Err(RootNodeNotFound)
    decreases |lines| - i
  {
    if i >= |lines| then []
    else [Candidate(lines, rootName, i, f)] + Verdicts(lines, rootName, i + 1, QuoteScan(TrimStart(lines[i]), 0, f))
  }

  /** One line of root discovery: a malformed name stops it with that error, the root's line
      stops it with that line, any other line passes the scanned flags on to the next line. */
  lemma RootSearchStep(lines: seq<string>, rootName: string, i: nat, f: Flags)
    requires i < |lines|
    ensures var c := Candidate(lines, rootName, i, f);
            var r := RootSearch(lines, rootName, i, f).result;
            (c.Err? ==> r == Err(c.error)) &&
            (c == Ok(true) ==> r == Ok(i)) &&
            (c == Ok(false) ==> r == RootSearch(lines, rootName, i + 1, QuoteScan(TrimStart(lines[i]), 0, f)).result)
  {
  }

  /** The verdicts from line `i` on are the verdict on line `i` followed by those from the next
      line on. */
  lemma VerdictsStep(lines: seq<string>, rootName: string, i: nat, f: Flags)
    requires i < |lines|
    ensures Verdicts(lines, rootName, i, f) ==
              [Candidate(lines, rootName, i, f)] + Verdicts(lines, rootName, i + 1, QuoteScan(TrimStart(lines[i]), 0, f))
    ensures Verdicts(lines, rootName, i, f)[0] == Candidate(lines, rootName, i, f)
    ensures Verdicts(lines, rootName, i, f)[1..] == Verdicts(lines, rootName, i + 1, QuoteScan(TrimStart(lines[i]), 0, f))
  {
  }

  /** The decision a run of verdicts leads to, the first verdict being on line `i`: the first
      line that is not passed over decides (its error, or that line as the root's); when every
      line is passed over, the root was not found. */
  function FirstDecision(v: seq<Result<bool>>, i: nat): Result<nat>
    decreases |v|
  {
    if |v| == 0 then Err(RootNodeNotFound)
    else if v[0].Err? then Err(v[0].error)
    else if v[0].value then Ok(i)
    else FirstDecision(v[1..], i + 1)
  }

  /** A decided line is the first one with `Ok(true)`; every line before it is passed over. */
  lemma {:induction false} FirstDecisionOk(v: seq<Result<bool>>, i: nat)
    ensures var r := FirstDecision(v, i);
            r.Ok? ==> i <= r.value < i + |v| && v[r.value - i] == Ok(true) &&
                      forall k :: 0 <= k < r.value - i ==> v[k] == Ok(false)
    decreases |v|
  {
    if |v| > 0 && v[0] == Ok(false) {
      FirstDecisionOk(v[1..], i + 1);
      var r := FirstDecision(v, i);
      if r.Ok? {
        assert forall k :: 0 < k < |v| ==> v[k] == v[1..][k - 1];
      }
    }
  }

  /** Not finding the root means every line was passed over, provided no line's own verdict
      is that error. */
  lemma {:induction false} FirstDecisionNotFound(v: seq<Result<bool>>, i: nat)
    requires forall k :: 0 <= k < |v| ==> v[k] != Err(RootNodeNotFound)
    ensures FirstDecision(v, i) == Err(RootNodeNotFound) <==> forall k :: 0 <= k < |v| ==> v[k] == Ok(false)
    decreases |v|
  {
    if |v| > 0 {
      assert forall k :: 0 < k < |v| ==> v[k] == v[1..][k - 1];
      if v[0] == Ok(false) {
        FirstDecisionNotFound(v[1..], i + 1);
      }
    }
  }

  /** Any other error is the verdict on the first line not passed over. */
  lemma {:induction false} FirstDecisionError(v: seq<Result<bool>>, i: nat)
    ensures var r := FirstDecision(v, i);
            r.Err? && r.error != RootNodeNotFound ==>
              exists k :: 0 <= k < |v| && v[k] == Err(r.error) && forall j :: 0 <= j < k ==> v[j] == Ok(false)
    decreases |v|
  {
    if |v| > 0 && v[0] == Ok(false) {
      FirstDecisionError(v[1..], i + 1);
      var r := FirstDecision(v, i);
      if r.Err? && r.error != RootNodeNotFound {
        var k :| 0 <= k < |v[1..]| && v[1..][k] == Err(r.error) && forall j :: 0 <= j < k ==> v[1..][j] == Ok(false);
        assert v[k + 1] == Err(r.error);
        assert forall j :: 0 < j < k + 1 ==> v[j] == v[1..][j - 1];
      }
    }
  }

  /** Root discovery decides as the verdicts on the lines do. */
  lemma {:induction false} RootSearchDecides(lines: seq<string>, rootName: string, i: nat, f: Flags)
    requires i <= |lines|
    ensures RootSearch(lines, rootName, i, f).result == FirstDecision(Verdicts(lines, rootName, i, f), i)
    decreases |lines| - i
  {
    if i < |lines| {
      var f1 := QuoteScan(TrimStart(lines[i]), 0, f);
      RootSearchStep(lines, rootName, i, f);
      VerdictsStep(lines, rootName, i, f);
      var c := Candidate(lines, rootName, i, f);
      var v := Verdicts(lines, rootName, i, f);
      if c.Err? {
        assert FirstDecision(v, i) == Err(c.error);
      } else if c.value {
        assert FirstDecision(v, i) == Ok(i);
      } else {
        RootSearchDecides(lines, rootName, i + 1, f1);
        assert FirstDecision(v, i) == FirstDecision(v[1..], i + 1);
      }
    }
  }

  /** `GetRootNodeLine` returns the first line whose verdict is `Ok(true)`, every line before
      it being passed over; it reports `RootNodeNotFound` exactly when every line is passed
      over; any other error is the malformed name of the first line not passed over. */
  lemma RootSearchFindsFirst(lines: seq<string>, rootName: string)
    ensures var r := RootSearch(lines, rootName, 0, Flags(false, false)).result;
            var v := Verdicts(lines, rootName, 0, Flags(false, false));
            (r.Ok? ==> r.value < |lines| && v[r.value] == Ok(true) && forall k :: 0 <= k < r.value ==> v[k] == Ok(false)) &&
            (r == Err(RootNodeNotFound) <==> forall k :: 0 <= k < |v| ==> v[k] == Ok(false)) &&
            (r.Err? && r.error != RootNodeNotFound ==>
               exists k :: 0 <= k < |v| && v[k] == Err(r.error) && forall j :: 0 <= j < k ==> v[j] == Ok(false))
  {
    var v := Verdicts(lines, rootName, 0, Flags(false, false));
    RootSearchDecides(lines, rootName, 0, Flags(false, false));
    FirstDecisionOk(v, 0);
    FirstDecisionNotFound(v, 0);
    FirstDecisionError(v, 0);
  }

  // ---------------------------------------------------------------- line control

  /** A comment line is one whose first character that is not white space is the comment sign. */
  lemma CommentLineShape(line: string)
    ensures IsComment(line) <==>
              exists k :: 0 <= k < |line| && line[k] == COMMENT_SIGN &&
                          forall j :: 0 <= j < k ==> IsWhiteSpace(line[j])
  {
    var t := TrimStart(line);
    var p := |line| - |t|;
    if IsComment(line) {
      assert line[p] == t[0];
    }
    if exists k :: 0 <= k < |line| && line[k] == COMMENT_SIGN && forall j :: 0 <= j < k ==> IsWhiteSpace(line[j]) {
      var k :| 0 <= k < |line| && line[k] == COMMENT_SIGN && forall j :: 0 <= j < k ==> IsWhiteSpace(line[j]);
      assert !IsWhiteSpace(COMMENT_SIGN);
      assert p == k && t[0] == line[k];
    }
  }

  /** An indentation directive may be surrounded by any white space, and a directive line is
      never both a push and a pop. */
  lemma PaddedDirective(pre: string, post: string)
    requires forall k :: 0 <= k < |pre| ==> IsWhiteSpace(pre[k])
    requires forall k :: 0 <= k < |post| ==> IsWhiteSpace(post[k])
    ensures IsIndentationPush(pre + INDENT_PUSH + post) && !IsIndentationPop(pre + INDENT_PUSH + post)
    ensures IsIndentationPop(pre + INDENT_POP + post) && !IsIndentationPush(pre + INDENT_POP + post)
  {
    assert !IsWhiteSpace('-');
    TrimPadded(pre, INDENT_PUSH, post);
    TrimPadded(pre, INDENT_POP, post);
  }

  /** Line classification: a comment line is skipped, and indentation that is not made of
      tabs is an error naming the line. */
  lemma ControlCommentOrBadIndent(line: string, i: nat, indents: seq<int>)
    ensures IsComment(line) ==> LineControlOf(line, i, indents) == Ok(CommentLine)
    ensures !IsComment(line) && !LeadingWhitespaceOk(line) ==> LineControlOf(line, i, indents) == Err(TextFileParser(i))
  {
  }

  /** A tab-indented line that is no comment is classified by its tab count. */
  lemma ControlByTabs(line: string, i: nat, indents: seq<int>)
    requires !IsComment(line) && LeadingWhitespaceOk(line)
    ensures LineControlOf(line, i, indents) == ClassifyLine(line, LeadingTabs(line), indents)
  {
  }

  /** A push directive stacks the line's tab count plus the offset on top of the stack. */
  lemma ControlPush(line: string, i: nat, indents: seq<int>)
    requires !IsComment(line) && LeadingWhitespaceOk(line) && IsIndentationPush(line)
    ensures LineControlOf(line, i, indents) == Ok(Directive(indents + [LeadingTabs(line) + GetIndentationOffset(indents)]))
  {
    ControlByTabs(line, i, indents);
  }

  /** A pop directive drops the top of the stack, and fails on an empty stack. */
  lemma ControlPop(line: string, i: nat, indents: seq<int>)
    requires !IsComment(line) && LeadingWhitespaceOk(line) && IsIndentationPop(line)
    ensures LineControlOf(line, i, indents) ==
              if |indents| == 0 then Err(InvalidOperation) else Ok(Directive(indents[..|indents| - 1]))
  {
    ControlByTabs(line, i, indents);
    assert !IsIndentationPush(line);
  }

  /** A push directive puts on top of the stack its own tab count plus the offset already on
      top, so nested pushes accumulate; a pop directive after it restores the stack, and with it
      the offset, as it was before the push. */
  lemma {:induction false} PushThenPop(push: string, pop: string, i: nat, j: nat, indents: seq<int>)
    requires !IsComment(push) && LeadingWhitespaceOk(push) && IsIndentationPush(push)
    requires !IsComment(pop) && LeadingWhitespaceOk(pop) && IsIndentationPop(pop)
    ensures var pushed := indents + [LeadingTabs(push) + GetIndentationOffset(indents)];
            LineControlOf(push, i, indents) == Ok(Directive(pushed)) &&
            GetIndentationOffset(pushed) == LeadingTabs(push) + GetIndentationOffset(indents) &&
            LineControlOf(pop, j, pushed) == Ok(Directive(indents))
  {
    var pushed := indents + [LeadingTabs(push) + GetIndentationOffset(indents)];
    assert pushed[..|pushed| - 1] == indents && |pushed| > 0;
    ControlPush(push, i, indents);
    ControlPop(pop, j, pushed);
  }

  /** A line that is no directive is a node line when it names a node, and otherwise a line of
      attributes; a node line's level is `tabs` shifted by the offset on top of the stack. */
  lemma ClassifyOther(line: string, tabs: nat, indents: seq<int>)
    requires !IsParserInstruction(line)
    ensures ClassifyLine(line, tabs, indents) ==
              if ContainsNodeName(false, false, line) then Ok(NodeLine(tabs + GetIndentationOffset(indents))) else Ok(OtherLine)
  {
  }

  /** Any other line is a node line when it names a node, and otherwise a line of attributes;
      a node line's level is its tab count shifted by the offset on top of the stack. */
  lemma ControlNodeLine(line: string, i: nat, indents: seq<int>)
    requires !IsComment(line) && LeadingWhitespaceOk(line) && !IsParserInstruction(line)
    ensures LineControlOf(line, i, indents) ==
              if ContainsNodeName(false, false, line) then Ok(NodeLine(LeadingTabs(line) + GetIndentationOffset(indents)))
              else Ok(OtherLine)
  {
    ControlByTabs(line, i, indents);
    ClassifyOther(line, LeadingTabs(line), indents);
  }

  /** Outside quotes and text blocks, comments and directives skip the line: the lexer goes on
      to the next line as it was, with the stack the directive leaves. */
  lemma SkippedLines(s: Scan, line: string, i: nat, rootLine: nat)
    requires !s.inQuoted && !s.inTextBlock
    ensures LineControlOf(line, i, s.indents) == Ok(CommentLine) ==> LineStep(s, line, i, rootLine) == Ok(Continue(s))
    ensures forall indents :: LineControlOf(line, i, s.indents) == Ok(Directive(indents)) ==>
              LineStep(s, line, i, rootLine) == Ok(Continue(s.(indents := indents)))
    ensures LineControlOf(line, i, s.indents).Err? ==> LineStep(s, line, i, rootLine) == Err(LineControlOf(line, i, s.indents).error)
  {
    match LineControlOf(line, i, s.indents)
    case Err(e) =>
      assert StartOfLine(s, line, i, rootLine) == Err(e);
    case Ok(control) =>
      if control.CommentLine? {
        assert StartOfLine(s, line, i, rootLine) == Ok(Skip(s));
      } else if control.Directive? {
        assert StartOfLine(s, line, i, rootLine) == Ok(Skip(s.(indents := control.indents)));
      }
  }

  /** A node line (outside quotes and text blocks) that does not stop the scan starts a node
      at the line's level, on the line's number, which is the root exactly on the root line;
      the node read so far is finished when valid, and the node name is read next. */
  lemma NodeLineStartsNode(s: Scan, line: string, i: nat, rootLine: nat, level: int)
    requires !s.inQuoted && !s.inTextBlock
    requires LineControlOf(line, i, s.indents) == Ok(NodeLine(level))
    requires !(level == 0 && s.current.isValid)
    ensures StartOfLine(s, line, i, rootLine) ==
              Ok(Begin(s.(nodes := if s.current.isValid then s.nodes + [s.current] else s.nodes,
                          current := NewDraft(level, i, i == rootLine),
                          context := NodeName)))
  {
  }

  // ---------------------------------------------------------------- within a line

  /** An unquoted character finishes at most one part of the line: a colon read in the node
      name finishes the name, white space read in a value finishes the value, an equals sign
      read in a key finishes the key and moves on to the value. */
  lemma CharRules(context: Context, c: char, named: bool)
    ensures var e := CharEffectOf(context, c, named);
            (e.readNodeName ==> !e.readAttributeName && !e.readAttributeValue) &&
            (e.readAttributeName ==> !e.readAttributeValue)
    ensures CharEffectOf(context, c, named).readNodeName <==> c == NODE_SIGN && context == NodeName
    ensures context == AttributeName && c == ASSIGNMENT_SIGN ==>
              CharEffectOf(context, c, named) == CharEffect(AttributeValue, false, true, false)
    ensures context == AttributeValue && IsWhiteSpace(c) ==>
              CharEffectOf(context, c, named) == CharEffect(AttributeName, false, false, true)
    ensures context == NodeName && IsWhiteSpace(c) && named ==>
              CharEffectOf(context, c, named) == CharEffect(AttributeName, false, false, false)
  {
  }

  /** An unquoted `#` outside a value and outside a text block ends the line: what follows it
      is never read, and the buffer is dropped. */
  lemma {:induction false} CommentSignEndsLine(s: Scan, line: string, lineNr: nat, y: nat)
    requires y < |line| && line[y] == COMMENT_SIGN
    requires !s.inTextBlock && !s.inQuoted && s.context != AttributeValue
    ensures ScanChars(s, line, lineNr, y) == Ok(s.(sb := []))
  {
    var window := GetWindow(line, y);
    assert window[0] == COMMENT_SIGN;
    assert window != TEXT_BLOCK_START && window != TEXT_BLOCK_END;
    assert ScanChar(s, line[y], lineNr) == Ok(EndLine(s.(sb := [])));
  }

  /** A value still open at the end of a line (outside quotes and text blocks) is closed there
      and the lexer goes back to reading keys. */
  lemma OpenValueClosedAtEndOfLine(s: Scan)
    requires !s.inQuoted && !s.inTextBlock && s.context == AttributeValue
    ensures EndOfLine(s) == match CloseValue(s)
                            case Err(e) => Err(e)
                            case Ok(s2) => Ok(s2.(context := AttributeName))
  {
  }

  // ---------------------------------------------------------------- the flat node list

  /** Reading characters changes only the buffer, the flags, the key, the current node's name
      and attributes: never the finished nodes, the stack, or the current node's level, line,
      root flag and validity. */
  predicate SameFrame(a: Scan, b: Scan) {
    b.nodes == a.nodes && b.indents == a.indents &&
    b.current.level == a.current.level && b.current.documentLine == a.current.documentLine &&
    b.current.isRootNode == a.current.isRootNode && b.current.isValid == a.current.isValid
  }

  lemma FinishPartKeepsFrame(s: Scan, e: CharEffect, lineNr: nat)
    ensures FinishPart(s, e, lineNr).Ok? ==> SameFrame(s, FinishPart(s, e, lineNr).value)
  {
  }

  lemma {:induction false} ScanCharsKeepsFrame(s: Scan, line: string, lineNr: nat, y: nat)
    ensures ScanChars(s, line, lineNr, y).Ok? ==> SameFrame(s, ScanChars(s, line, lineNr, y).value)
    decreases |line| - y
  {
    if y < |line| {
      var window := GetWindow(line, y);
      if window == TEXT_BLOCK_START && !s.inTextBlock {
        ScanCharsKeepsFrame(s.(inTextBlock := true), line, lineNr, y + 2);
      } else if window == TEXT_BLOCK_END {
        ScanCharsKeepsFrame(s.(inTextBlock := false), line, lineNr, y + 2);
      } else {
        var s0 := s.(sb := s.sb + [line[y]]);
        if !s0.inTextBlock {
          var s1 := s0.(inQuoted := if line[y] == STRING_SIGN then !s0.inQuoted else s0.inQuoted);
          var e := if s1.inQuoted then CharEffect(s1.context, false, false, false)
                   else CharEffectOf(s1.context, line[y], s1.current.nodeName.Some?);
          FinishPartKeepsFrame(s1.(context := e.context), e, lineNr);
        }
        match ScanChar(s, line[y], lineNr)
        case Err(_) =>
        case Ok(o) =>
          if o.Next? {
            ScanCharsKeepsFrame(o.s, line, lineNr, y + 1);
          }
      }
    }
  }

  /** The first finished node is the root, or no node is finished yet and the current one is
      the valid root node. */
  predicate RootFirst(s: Scan) {
    if |s.nodes| > 0 then s.nodes[0].isRootNode == Some(true)
    else s.current.isRootNode == Some(true) && s.current.isValid
  }

  /** Reading the characters of a line keeps the first node the root. */
  lemma ScanLineKeepsRootFirst(s: Scan, line: string, i: nat)
    requires RootFirst(s)
    ensures ScanLine(s, line, i).Ok? ==> RootFirst(ScanLine(s, line, i).value.s)
  {
    ScanCharsKeepsFrame(s, line, i, 0);
    match ScanChars(s, line, i, 0)
    case Err(_) =>
    case Ok(s2) =>
      if !s2.inQuoted && !s2.inTextBlock && s2.context == AttributeValue {
        FinishPartKeepsFrame(s2, CharEffect(s2.context, false, false, true), i);
      }
  }

  /** The control logic of a line keeps the first node the root. */
  lemma StartKeepsRootFirst(s: Scan, line: string, i: nat, rootLine: nat)
    requires RootFirst(s)
    ensures StartOfLine(s, line, i, rootLine).Ok? && !StartOfLine(s, line, i, rootLine).value.Halt? ==>
              RootFirst(StartOfLine(s, line, i, rootLine).value.s)
  {
    if !s.inTextBlock && !s.inQuoted {
      match LineControlOf(line, i, s.indents)
      case Err(_) =>
      case Ok(control) =>
        if control.NodeLine? {
          NodeStartKeepsRootFirst(s, control.level, i, rootLine);
        }
    }
  }

  /** Starting a node keeps the first node the root. */
  lemma NodeStartKeepsRootFirst(s: Scan, level: int, i: nat, rootLine: nat)
    requires RootFirst(s)
    ensures NodeStart(s, level, i, rootLine).Begin? ==> RootFirst(NodeStart(s, level, i, rootLine).s)
  {
    if !(level == 0 && s.current.isValid) && s.current.isValid {
      assert (s.nodes + [s.current])[0] == if |s.nodes| > 0 then s.nodes[0] else s.current;
    }
  }

  /** A line keeps the first node the root. */
  lemma LineStepKeepsRootFirst(s: Scan, line: string, i: nat, rootLine: nat)
    requires RootFirst(s)
    ensures LineStep(s, line, i, rootLine).Ok? ==> RootFirst(LineStep(s, line, i, rootLine).value.s)
  {
    StartKeepsRootFirst(s, line, i, rootLine);
    match StartOfLine(s, line, i, rootLine)
    case Err(_) =>
    case Ok(start) =>
      if start.Begin? {
        ScanLineKeepsRootFirst(start.s, line, i);
      }
  }

  /** The lines after it keep the first node the root. */
  lemma {:induction false} ScanLinesKeepsRootFirst(s: Scan, lines: seq<string>, i: nat, rootLine: nat)
    requires RootFirst(s)
    ensures ScanLines(s, lines, i, rootLine).Ok? ==> RootFirst(ScanLines(s, lines, i, rootLine).value)
    decreases |lines| - i
  {
    if i < |lines| {
      ScanLinesStep(s, lines, i, rootLine);
      LineStepKeepsRootFirst(s, lines[i], i, rootLine);
      match LineStep(s, lines[i], i, rootLine)
      case Err(_) =>
      case Ok(o) =>
        if o.Continue? {
          ScanLinesKeepsRootFirst(o.s, lines, i + 1, rootLine);
        }
    }
  }

  /** When the root line is a node line, the first node of the flat list is the root (the
      node `Parse` returns). */
  lemma FlatListStartsWithRoot(context: Context, lines: seq<string>, rootLine: nat, level: int)
    requires rootLine < |lines|
    requires LineControlOf(lines[rootLine], rootLine, []) == Ok(NodeLine(level))
    ensures var r := ScanLines(InitialScan(context), lines, rootLine, rootLine);
            r.Ok? ==> (r.value.nodes + [r.value.current])[0].isRootNode == Some(true)
  {
    var s := InitialScan(context);
    var line := lines[rootLine];
    ScanLinesStep(s, lines, rootLine, rootLine);
    NodeLineStartsNode(s, line, rootLine, rootLine, level);
    var s1 := s.(current := NewDraft(level, rootLine, true), context := NodeName);
    assert RootFirst(s1);
    ScanLineKeepsRootFirst(s1, line, rootLine);
    assert LineStep(s, line, rootLine, rootLine) == ScanLine(s1, line, rootLine);
    match ScanLine(s1, line, rootLine)
    case Err(_) =>
    case Ok(o) =>
      ScanLinesKeepsRootFirst(o.s, lines, rootLine + 1, rootLine);
  }

  /** Reading stops, silently and with the state as it is, at a top-level node line once a
      valid node has been read: the rest of the file is never looked at. */
  lemma StopsAtNextTopLevelNode(s: Scan, lines: seq<string>, i: nat, rootLine: nat)
    requires i < |lines| && !s.inQuoted && !s.inTextBlock && s.current.isValid
    requires LineControlOf(lines[i], i, s.indents) == Ok(NodeLine(0))
    ensures ScanLines(s, lines, i, rootLine) == Ok(s)
  {
    ScanLinesStep(s, lines, i, rootLine);
  }
}
