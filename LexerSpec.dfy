/** What the file reader computes, as functions of the document's lines: the small string
    helpers, root-line discovery, the line-by-line and character-by-character lexer that
    produces the flat node list, and the linking of that list into a tree. */
module IonLexerSpec {
  import opened Wrappers
  import opened IonText
  import opened IonModel
  import opened IonValidator

  const COMMENT_SIGN: char := '#'
  const NODE_SIGN: char := ':'
  const ASSIGNMENT_SIGN: char := '='
  const STRING_SIGN: char := '"'
  const TEXT_BLOCK_START: string := "<!"
  const TEXT_BLOCK_END: string := "!>"
  const INDENT_PUSH: string := "--- IndentationPush ---"
  const INDENT_POP: string := "--- IndentationPop ---"
  /** The line separator kept inside text blocks (`Environment.NewLine`, fixed here). */
  const NEW_LINE: string := "\n"

  // ---------------------------------------------------------------- string helpers

  /** The number of tab characters a line starts with. */
  function LeadingTabs(line: string): (r: nat)
    ensures r <= |line|
    ensures forall k :: 0 <= k < r ==> line[k] == '\t'
    ensures r < |line| ==> line[r] != '\t'
  {
    if |line| > 0 && line[0] == '\t' then 1 + LeadingTabs(line[1..]) else 0
  }

  /** `CleanNodeName`: drops a dot-qualified prefix; a name ending in a dot is an error. */
  function CleanNodeName(nodeName: string, lineNr: int): (r: Result<string>)
    ensures '.' !in nodeName ==> r == Ok(nodeName)
    ensures '.' in nodeName && nodeName[|nodeName| - 1] == '.' ==> r == Err(TextFileParser(lineNr))
    ensures '.' in nodeName && nodeName[|nodeName| - 1] != '.' ==>
              r.Ok? && '.' !in r.value && 0 < |r.value| < |nodeName| &&
              nodeName[|nodeName| - |r.value| - 1] == '.' &&
              nodeName[|nodeName| - |r.value|..] == r.value
  {
    if '.' in nodeName then
      var k := LastIndexOf(nodeName, '.');
      if k < |nodeName| - 1 then Ok(nodeName[k + 1..]) else Err(TextFileParser(lineNr))
    else Ok(nodeName)
  }

  /** `t` is `v` with at most one `c` added at each end: exactly where `t` has one. */
  predicate Framed(t: string, v: string, c: char)
    requires |t| > 0
  {
    (if t[0] == c then [c] else []) + v + (if t[|t| - 1] == c then [c] else []) == t
  }

  /** `TrimSingle`: removes one `c` at each end that has one. Indexing an empty string, or
      asking for a negative-length substring of the one-character string `c`, fails. */
  function TrimSingle(str: string, c: char): (r: Option<string>)
    ensures r.None? <==> str == [] || str == [c]
    ensures r.Some? ==> Framed(str, r.value, c)
  {
    if |str| == 0 then None
    else if str[0] == c || str[|str| - 1] == c then
      var startIndex := if str[0] == c then 1 else 0;
      var substringLength := |str| - startIndex - (if str[|str| - 1] == c then 1 else 0);
      if substringLength < 0 then None
      else
        var v := str[startIndex..startIndex + substringLength];
        assert str == str[..startIndex] + v + str[startIndex + substringLength..];
        Some(v)
    else Some(str)
  }

  /** `CleanAttributeString`: trims white space, then one quote at each end. A value that is
      empty or a lone quote after trimming is rejected (the exception carries no line). */
  function CleanAttributeString(str: string): (r: Result<string>)
    ensures r.Err? <==> Trim(str) == [] || Trim(str) == [STRING_SIGN]
    ensures r.Err? ==> r.error == TextFileParser(0)
    ensures r.Ok? ==> |Trim(str)| > 0 && Framed(Trim(str), r.value, STRING_SIGN)
  {
    match TrimSingle(Trim(str), STRING_SIGN)
    case None => Err(TextFileParser(0))
    case Some(v) => Ok(v)
  }

  /** `GetWindow`: the (at most) two characters from `position` on. */
  function GetWindow(line: string, position: nat): (r: string)
    requires position <= |line|
    ensures |r| == (if position + 2 <= |line| then 2 else |line| - position)
    ensures r == line[position..position + |r|]
  {
    var windowLength := if position + 2 >= |line| then |line| - position else 2;
    line[position..position + windowLength]
  }

  /** A comment line: its first non-white-space character is `#`. */
  predicate IsComment(line: string) {
    var t := TrimStart(line);
    |t| > 0 && t[0] == COMMENT_SIGN
  }

  predicate IsIndentationPush(line: string) {
    Trim(line) == INDENT_PUSH
  }

  predicate IsIndentationPop(line: string) {
    Trim(line) == INDENT_POP
  }

  predicate IsParserInstruction(line: string) {
    IsIndentationPush(line) || IsIndentationPop(line)
  }

  /** The offset on top of the indentation stack, or 0 for an empty stack. */
  function GetIndentationOffset(extraIndents: seq<int>): (r: int)
    ensures |extraIndents| == 0 ==> r == 0
    ensures |extraIndents| > 0 ==> r == extraIndents[|extraIndents| - 1]
  {
    if |extraIndents| > 0 then extraIndents[|extraIndents| - 1] else 0
  }

  /** `ContainsNodeName`: outside quotes and text blocks, a line names a node when it holds
      a colon with no quote before it. */
  function ContainsNodeName(inQualifiedString: bool, inTextBlock: bool, line: string): (r: bool)
    ensures r <==> !inQualifiedString && !inTextBlock &&
                   exists k :: 0 <= k < |line| && line[k] == NODE_SIGN && STRING_SIGN !in line[..k]
  {
    var contains :=
      !inQualifiedString && !inTextBlock && NODE_SIGN in line &&
      (STRING_SIGN !in line || IndexOf(line, NODE_SIGN) < IndexOf(line, STRING_SIGN));
    if contains then
      var k := IndexOf(line, NODE_SIGN);
      var q := IndexOf(line, STRING_SIGN);
      assert q >= 0 ==> line[..k] == line[..q][..k];
      contains
    else
      forall k | 0 <= k < |line| && line[k] == NODE_SIGN && STRING_SIGN !in line[..k]
        ensures inQualifiedString || inTextBlock
      {
        IndexOfAtMost(line, NODE_SIGN, k);
        IndexOfAtLeast(line, STRING_SIGN, k);
      }
      contains
  }

  // ---------------------------------------------------------------- root discovery

  /** The quoted-string and text-block flags. */
  datatype Flags = Flags(inQuoted: bool, inTextBlock: bool)

  /** The flags after scanning `line` from `y` on as root discovery does: a text-block marker
      is recognised anywhere, and the character after it is then examined. */
  function QuoteScan(line: string, y: nat, f: Flags): Flags
    decreases |line| - y
  {
    if y >= |line| then f
    else
      var window := GetWindow(line, y);
      var marker := window == TEXT_BLOCK_START || window == TEXT_BLOCK_END;
      var f1 := if window == TEXT_BLOCK_START then f.(inTextBlock := true)
                else if window == TEXT_BLOCK_END then f.(inTextBlock := false)
                else f;
      var y1 := if marker then y + 1 else y;
      var c := line[y1];
      var f2 := if !f1.inTextBlock && c == STRING_SIGN then f1.(inQuoted := !f1.inQuoted) else f1;
      QuoteScan(line, y1 + 1, f2)
  }

  /** The outcome of root discovery and the flags it leaves behind. */
  datatype RootScan = RootScan(result: Result<nat>, flags: Flags)

  /** What root discovery makes of one (start-trimmed) line once its flags are known: outside
      quotes and text blocks, a node line is the root's when its cleaned name is the root
      name; a malformed name is an error. */
  function RootCandidate(line: string, lineNr: nat, rootName: string, f: Flags): Result<bool> {
    if !f.inTextBlock && !f.inQuoted && ContainsNodeName(f.inQuoted, f.inTextBlock, line) then
      var name :- CleanNodeName(line[..IndexOf(line, NODE_SIGN)], lineNr);
      Ok(name == rootName)
    else Ok(false)
  }

  /** `GetRootNodeLine` from line `i` on, with the flags `f` carried from earlier lines. */
  function RootSearch(lines: seq<string>, rootName: string, i: nat, f: Flags): (r: RootScan)
    ensures r.result.Ok? ==> i <= r.result.value < |lines|
    decreases |lines| - i
  {
    if i >= |lines| then RootScan(Err(RootNodeNotFound), f)
    else
      var line := TrimStart(lines[i]);
      var f1 := QuoteScan(line, 0, f);
      match RootCandidate(line, i, rootName, f1)
      case Err(e) => RootScan(Err(e), f1)
      case Ok(found) =>
        if found then RootScan(Ok(i), f1.(inQuoted := false))
        else RootSearch(lines, rootName, i + 1, f1)
  }

  // ---------------------------------------------------------------- flat lexer

  /** The lexer's whole state: the reader's three fields, the text buffer, the key of the
      attribute being read, the node being read, the finished nodes and the indentation stack. */
  datatype Scan = Scan(inQuoted: bool, inTextBlock: bool, context: Context, sb: string,
                       attrName: Option<string>, current: Draft, nodes: seq<Draft>,
                       indents: seq<int>)

  /** What one character does: go on with the line, or drop its rest (a comment). */
  datatype CharOutcome = Next(s: Scan) | EndLine(s: Scan)

  /** What one line does: go on with the next line, or stop reading (a second top-level node). */
  datatype LineOutcome = Continue(s: Scan) | Stop(s: Scan)

  /** The invalid placeholder node a scan starts with. */
  const NoNode: Draft := Draft(None, None, None, None, [], false)

  /** A node line's fresh node. */
  function NewDraft(level: int, line: int, isRootNode: bool): Draft {
    Draft(None, Some(level), Some(line), Some(isRootNode), [], true)
  }

  function AddAttribute(d: Draft, a: IonAttribute): Draft {
    d.(attributes := d.attributes + [a])
  }

  /** The context after an unquoted character, and which part of the line it finishes. */
  datatype CharEffect = CharEffect(context: Context, readNodeName: bool, readAttributeName: bool,
                                   readAttributeValue: bool)

  /** The context switches of one unquoted character, in the order the reader applies them: a
      colon finishes the node name; white space after a named node moves on to the keys and
      finishes a value; an equals sign after a key moves on to its value. */
  function CharEffectOf(context: Context, c: char, named: bool): CharEffect {
    var readNodeName := c == NODE_SIGN && context == NodeName;
    var ctx1 := if IsWhiteSpace(c) && context == NodeName && named then AttributeName else context;
    var readAttributeValue := IsWhiteSpace(c) && ctx1 == AttributeValue;
    var ctx2 := if readAttributeValue then AttributeName else ctx1;
    var readAttributeName := c == ASSIGNMENT_SIGN && ctx2 == AttributeName;
    var ctx3 := if readAttributeName then AttributeValue else ctx2;
    CharEffect(ctx3, readNodeName, readAttributeName, readAttributeValue)
  }

  /** One character that is not part of a text-block marker. */
  function ScanChar(s0: Scan, c: char, lineNr: nat): Result<CharOutcome> {
    var s := s0.(sb := s0.sb + [c]);
    if s.inTextBlock then Ok(Next(s))
    else
      var s := s.(inQuoted := if c == STRING_SIGN then !s.inQuoted else s.inQuoted);
      if !s.inQuoted && c == COMMENT_SIGN && s.context != AttributeValue then Ok(EndLine(s.(sb := [])))
      else
        var e := if s.inQuoted then CharEffect(s.context, false, false, false)
                 else CharEffectOf(s.context, c, s.current.nodeName.Some?);
        var s1 :- FinishPart(s.(context := e.context), e, lineNr);
        Ok(Next(s1))
  }

  /** The part of the line a character finishes: a key, a value or the node's name; the
      buffer then starts afresh. */
  function FinishPart(s: Scan, e: CharEffect, lineNr: nat): Result<Scan> {
    if e.readAttributeName then
      Ok(s.(attrName := Some(TrimEndChar(Trim(s.sb), ASSIGNMENT_SIGN)), sb := []))
    else if e.readAttributeValue then CloseValue(s)
    else if e.readNodeName then CloseNodeName(s, lineNr)
    else Ok(s)
  }

  /** The buffer, cleaned, becomes the value of an attribute of the current node. */
  function CloseValue(s: Scan): Result<Scan> {
    var v :- CleanAttributeString(s.sb);
    Ok(s.(current := AddAttribute(s.current, IonAttribute(s.attrName, v)), sb := []))
  }

  /** The name a node-name buffer stands for: trimmed, without its colons, cleaned. */
  function NodeNameOf(sb: string, lineNr: nat): Result<string> {
    CleanNodeName(TrimEndChar(Trim(sb), NODE_SIGN), lineNr)
  }

  /** The buffer, up to its colon and cleaned, becomes the current node's name. */
  function CloseNodeName(s: Scan, lineNr: nat): Result<Scan> {
    var name :- NodeNameOf(s.sb, lineNr);
    Ok(s.(current := s.current.(nodeName := Some(name)), sb := []))
  }

  /** The characters of a line from `y` on. A text-block start (outside a text block) and a
      text-block end are skipped as a whole and only switch the text-block flag. */
  function ScanChars(s: Scan, line: string, lineNr: nat, y: nat): Result<Scan>
    decreases |line| - y
  {
    if y >= |line| then Ok(s)
    else
      var window := GetWindow(line, y);
      if window == TEXT_BLOCK_START && !s.inTextBlock then
        ScanChars(s.(inTextBlock := true), line, lineNr, y + 2)
      else if window == TEXT_BLOCK_END then
        ScanChars(s.(inTextBlock := false), line, lineNr, y + 2)
      else
        var o :- ScanChar(s, line[y], lineNr);
        match o
        case EndLine(s1) => Ok(s1)
        case Next(s1) => ScanChars(s1, line, lineNr, y + 1)
  }

  /** The end of a line: outside quotes and text blocks an open value is closed; inside a
      text block the line break is kept. */
  function EndOfLine(s: Scan): Result<Scan> {
    var s1 :-
      if !s.inQuoted && !s.inTextBlock && s.context == AttributeValue then
        var s2 :- CloseValue(s);
        Ok(s2.(context := AttributeName))
      else Ok(s);
    Ok(if s1.inTextBlock then s1.(sb := s1.sb + NEW_LINE) else s1)
  }

  /** The characters of a line, then its end. */
  function ScanLine(s: Scan, line: string, lineNr: nat): Result<LineOutcome> {
    var s1 :- ScanChars(s, line, lineNr, 0);
    var s2 :- EndOfLine(s1);
    Ok(Continue(s2))
  }

  /** What the control logic of `ParseToFlat` makes of a line read outside quotes and text
      blocks: a comment, an indentation directive (with the stack after it), a node line (with
      its level) or any other line. */
  datatype LineControl = CommentLine | Directive(indents: seq<int>) | NodeLine(level: int) | OtherLine

  /** The classification of a line: comments are skipped, the indentation must be tabs,
      directives work the stack, and the level of a node line is its tab count plus the offset
      on top of the stack. */
  function LineControlOf(line: string, i: nat, indents: seq<int>): Result<LineControl> {
    if IsComment(line) then Ok(CommentLine)
    else if !LeadingWhitespaceOk(line) then Err(TextFileParser(i))
    else ClassifyLine(line, LeadingTabs(line), indents)
  }

  /** The classification of a tab-indented, non-comment line with `tabs` leading tabs. */
  function ClassifyLine(line: string, tabs: nat, indents: seq<int>): Result<LineControl> {
    if IsParserInstruction(line) then
      if IsIndentationPush(line) then Ok(Directive(indents + [tabs + GetIndentationOffset(indents)]))
      else if |indents| == 0 then Err(InvalidOperation)
      else Ok(Directive(indents[..|indents| - 1]))
    else
      var level := tabs + GetIndentationOffset(indents);
      if ContainsNodeName(false, false, line) then Ok(NodeLine(level)) else Ok(OtherLine)
  }

  /** What the control logic leaves to do with a line: skip it (with the state after it),
      stop reading, or read its characters (from the state after it). */
  datatype LineStart = Skip(s: Scan) | Halt | Begin(s: Scan)

  /** The control logic of `ParseToFlat` for one line. Outside quotes and text blocks a line
      is first classified; a node line finishes the current node and starts the next one, or
      stops the scan when it is a second top-level node. */
  function StartOfLine(s: Scan, line: string, i: nat, rootLine: nat): Result<LineStart> {
    if !s.inTextBlock && !s.inQuoted then
      var control :- LineControlOf(line, i, s.indents);
      match control
      case CommentLine => Ok(Skip(s))
      case Directive(indents) => Ok(Skip(s.(indents := indents)))
      case NodeLine(level) => Ok(NodeStart(s, level, i, rootLine))
      case OtherLine => Ok(Begin(s))
    else Ok(Begin(s))
  }

  /** A node line: a second top-level node stops the scan; otherwise the current node, when
      valid, is finished and a new node at `level` begins. */
  function NodeStart(s: Scan, level: int, i: nat, rootLine: nat): LineStart {
    if level == 0 && s.current.isValid then Halt
    else
      Begin(s.(nodes := if s.current.isValid then s.nodes + [s.current] else s.nodes,
               current := NewDraft(level, i, i == rootLine),
               context := NodeName))
  }

  /** One line of `ParseToFlat`: its control logic, then its characters. */
  function LineStep(s: Scan, line: string, i: nat, rootLine: nat): Result<LineOutcome> {
    var start :- StartOfLine(s, line, i, rootLine);
    match start
    case Skip(s1) => Ok(Continue(s1))
    case Halt => Ok(Stop(s))
    case Begin(s1) => ScanLine(s1, line, i)
  }

  /** The lines from `i` on. The line loop is split over three functions (the bound check,
      the line at `i`, the step over its text) so that a single unfolding of `ScanLines` does
      not reach the lexer of one line. */
  function ScanLines(s: Scan, lines: seq<string>, i: nat, rootLine: nat): Result<Scan>
    decreases |lines| - i, 2
  {
    if i >= |lines| then Ok(s) else LineAt(s, lines, i, rootLine)
  }

  /** Line `i`, then the lines after it. */
  function LineAt(s: Scan, lines: seq<string>, i: nat, rootLine: nat): Result<Scan>
    requires i < |lines|
    decreases |lines| - i, 1
  {
    LineThenRest(s, lines[i], lines, i, rootLine)
  }

  /** The line `line` (number `i`), then, unless it stops the scan, the lines after it. */
  function LineThenRest(s: Scan, line: string, lines: seq<string>, i: nat, rootLine: nat): Result<Scan>
    requires i < |lines|
    decreases |lines| - i, 0
  {
    var o :- LineStep(s, line, i, rootLine);
    match o
    case Stop(s1) => Ok(s1)
    case Continue(s1) => ScanLines(s1, lines, i + 1, rootLine)
  }

  /** One unfolding of the line loop. */
  lemma ScanLinesStep(s: Scan, lines: seq<string>, i: nat, rootLine: nat)
    requires i < |lines|
    ensures ScanLines(s, lines, i, rootLine) ==
            match LineStep(s, lines[i], i, rootLine)
            case Err(e) => Err(e)
            case Ok(Stop(s1)) => Ok(s1)
            case Ok(Continue(s1)) => ScanLines(s1, lines, i + 1, rootLine)
  {
    assert ScanLines(s, lines, i, rootLine) == LineAt(s, lines, i, rootLine);
    assert LineAt(s, lines, i, rootLine) == LineThenRest(s, lines[i], lines, i, rootLine);
  }

  /** Past the last line the scan is over. */
  lemma ScanLinesAtEnd(s: Scan, lines: seq<string>, i: nat, rootLine: nat)
    requires i >= |lines|
    ensures ScanLines(s, lines, i, rootLine) == Ok(s)
  {
  }

  /** The state a flat parse starts in: `context` is whatever the reader holds. */
  function InitialScan(context: Context): Scan {
    Scan(false, false, context, [], None, NoNode, [], [])
  }

  /** The final lexer state of `ParseToFlat`: find the root line, then scan from it. */
  function ParseToFlatScan(lines: seq<string>, rootName: string, context: Context): Result<Scan> {
    var rootLine :- RootSearch(lines, rootName, 0, Flags(false, false)).result;
    ScanLines(InitialScan(context), lines, rootLine, rootLine)
  }

  /** The conversion of every draft, in order; the first failure wins. */
  function ConvertAll(ds: seq<Draft>): (r: Result<seq<IonNode>>)
    ensures r.Ok? ==> |r.value| == |ds|
    ensures r.Ok? ==> forall k :: 0 <= k < |ds| ==> FromDraft(ds[k]) == Ok(r.value[k])
    ensures r.Err? <==> exists k :: 0 <= k < |ds| && FromDraft(ds[k]).Err?
    ensures r.Err? ==> r.error == InvalidOperation
  {
    if |ds| == 0 then Ok([])
    else
      var init :- ConvertAll(ds[..|ds| - 1]);
      var last :- FromDraft(ds[|ds| - 1]);
      Ok(init + [last])
  }

  /** `ParseToFlat`: the finished nodes and the last one, converted. */
  function ParseToFlatSpec(lines: seq<string>, rootName: string, context: Context): Result<seq<IonNode>> {
    var s :- ParseToFlatScan(lines, rootName, context);
    ConvertAll(s.nodes + [s.current])
  }

  // ---------------------------------------------------------------- tree linking

  /** The nearest node at or before `j` whose level is `lvl`. */
  function SearchParent(flat: seq<IonNode>, lvl: int, j: int): (r: Option<nat>)
    requires j < |flat|
    ensures r.Some? ==> r.value <= j && flat[r.value].level == lvl &&
                        forall k :: r.value < k <= j ==> flat[k].level != lvl
    ensures r.None? ==> forall k :: 0 <= k <= j ==> flat[k].level != lvl
    decreases j + 1
  {
    if j < 0 then None
    else if flat[j].level == lvl then Some(j)
    else SearchParent(flat, lvl, j - 1)
  }

  /** The parent the tree builder gives node `i`: for a node above level 0, the nearest
      earlier node one level up. */
  function ExpectedParent(flat: seq<IonNode>, i: nat): (r: Option<nat>)
    requires i < |flat|
    ensures r.Some? ==> r.value < i && flat[i].level > 0 && flat[r.value].level == flat[i].level - 1
    ensures r.Some? ==> forall k :: r.value < k < i ==> flat[k].level != flat[i].level - 1
    ensures r.None? && flat[i].level > 0 ==> forall k :: 0 <= k < i ==> flat[k].level != flat[i].level - 1
  {
    if flat[i].level > 0 then SearchParent(flat, flat[i].level - 1, i) else None
  }

  /** A node above level 0, not the root, with no node one level up before it. */
  predicate Unlinked(flat: seq<IonNode>, i: nat)
    requires i < |flat|
  {
    flat[i].level > 0 && ExpectedParent(flat, i).None? && !flat[i].isRootNode
  }

  /** The first unlinked node from `from` on. */
  function FirstUnlinked(flat: seq<IonNode>, from: nat): (r: Option<nat>)
    ensures r.Some? ==> from <= r.value < |flat| && Unlinked(flat, r.value) &&
                        forall k :: from <= k < r.value ==> !Unlinked(flat, k)
    ensures r.None? ==> forall k :: from <= k < |flat| ==> !Unlinked(flat, k)
    decreases |flat| - from
  {
    if from >= |flat| then None
    else if Unlinked(flat, from) then Some(from)
    else FirstUnlinked(flat, from + 1)
  }

  /** The positions before `n` whose expected parent is `m`, in order. */
  function ChildrenUpTo(flat: seq<IonNode>, m: nat, n: nat): (r: seq<nat>)
    requires n <= |flat|
    ensures forall k :: 0 <= k < |r| ==> r[k] < n && ExpectedParent(flat, r[k]) == Some(m)
    ensures forall c :: 0 <= c < n && ExpectedParent(flat, c) == Some(m) ==> c in r
    ensures forall a, b :: 0 <= a < b < |r| ==> r[a] < r[b]
  {
    if n == 0 then []
    else
      var prev := ChildrenUpTo(flat, m, n - 1);
      var last := if ExpectedParent(flat, n - 1) == Some(m) then [n - 1] else [];
      assert forall k :: 0 <= k < |prev| ==> (prev + last)[k] == prev[k];
      prev + last
  }

  /** The nodes after the first `n` of them have been connected to their parents. */
  function PartiallyLinked(flat: seq<IonNode>, n: nat): (r: seq<IonNode>)
    requires n <= |flat|
    ensures |r| == |flat|
  {
    seq(|flat|, m requires 0 <= m < |flat| =>
      flat[m].(parent := if m < n && ExpectedParent(flat, m).Some? then ExpectedParent(flat, m)
                         else flat[m].parent,
               children := flat[m].children + ChildrenUpTo(flat, m, n)))
  }

  /** `ConnectToParent` for node `index`: link it to the nearest node one level up at or
      before it, or fail when there is none and the node is not the root. */
  function Connect(nodes: seq<IonNode>, index: nat): Result<seq<IonNode>>
    requires index < |nodes|
  {
    match SearchParent(nodes, nodes[index].level - 1, index)
    case Some(p) =>
      var linked := nodes[index := nodes[index].(parent := Some(p))];
      Ok(linked[p := linked[p].(children := linked[p].children + [index])])
    case None =>
      if nodes[index].isRootNode then Ok(nodes) else Err(TextFileParser(nodes[index].documentLine))
  }

  /** `BuildTree`: the first unlinked node is an error; otherwise every node is linked. */
  function BuildTreeSpec(flat: seq<IonNode>): Result<seq<IonNode>> {
    match FirstUnlinked(flat, 0)
    case Some(i) => Err(TextFileParser(flat[i].documentLine))
    case None => Ok(PartiallyLinked(flat, |flat|))
  }

  /** `FileToIonNodeReader.Parse`: the flat parse, linked; the root is the first node. */
  function ReaderParseSpec(lines: seq<string>, rootName: string, context: Context): Result<seq<IonNode>> {
    var flat :- ParseToFlatSpec(lines, rootName, context);
    BuildTreeSpec(flat)
  }
}
