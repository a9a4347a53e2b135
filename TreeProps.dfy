/** Properties of the tree linking: what one `ConnectToParent` step does to the partially
    linked list, and the shape of the finished tree. */
module IonTreeProps {
  import opened Wrappers
  import opened IonModel
  import opened IonLexerSpec

  /** The parent search only looks at levels. */
  lemma {:induction false} SearchParentSameLevels(a: seq<IonNode>, b: seq<IonNode>, lvl: int, j: int)
    requires |a| == |b| && j < |a|
    requires forall k :: 0 <= k < |a| ==> a[k].level == b[k].level
    ensures SearchParent(a, lvl, j) == SearchParent(b, lvl, j)
    decreases j + 1
  {
    if j >= 0 && a[j].level != lvl {
      SearchParentSameLevels(a, b, lvl, j - 1);
    }
  }

  /** Linking keeps every node's level, line, name, root flag and attributes. */
  lemma PartiallyLinkedKeepsFields(flat: seq<IonNode>, n: nat)
    requires n <= |flat|
    ensures forall m :: 0 <= m < |flat| ==>
              var x := PartiallyLinked(flat, n)[m];
              x.level == flat[m].level && x.documentLine == flat[m].documentLine &&
              x.nodeName == flat[m].nodeName && x.isRootNode == flat[m].isRootNode &&
              x.attributes == flat[m].attributes
  {
  }

  /** Before any linking, the list is the flat list itself. */
  lemma NothingLinked(flat: seq<IonNode>)
    ensures PartiallyLinked(flat, 0) == flat
  {
    assert forall m :: 0 <= m < |flat| ==> PartiallyLinked(flat, 0)[m] == flat[m];
  }

  /** Connecting node `i` to its parent `p` extends the linking by one node. */
  lemma {:induction false} LinkOne(flat: seq<IonNode>, i: nat, p: nat)
    requires i < |flat| && ExpectedParent(flat, i) == Some(p)
    ensures var cur := PartiallyLinked(flat, i);
            var linked := cur[i := cur[i].(parent := Some(p))];
            linked[p := linked[p].(children := linked[p].children + [i])] == PartiallyLinked(flat, i + 1)
  {
    var cur := PartiallyLinked(flat, i);
    var next := PartiallyLinked(flat, i + 1);
    var linked := cur[i := cur[i].(parent := Some(p))];
    var result := linked[p := linked[p].(children := linked[p].children + [i])];
    forall m | 0 <= m < |flat|
      ensures result[m] == next[m]
    {
      assert ChildrenUpTo(flat, m, i + 1) == ChildrenUpTo(flat, m, i) + (if m == p then [i] else []);
      if m == p {
        assert result[m] == cur[p].(children := cur[p].children + [i]);
      } else if m == i {
        assert result[m] == cur[i].(parent := Some(p));
      } else {
        assert result[m] == cur[m];
      }
    }
  }

  /** A node with no expected parent changes nothing in the linking. */
  lemma {:induction false} LinkNone(flat: seq<IonNode>, i: nat)
    requires i < |flat| && ExpectedParent(flat, i).None?
    ensures PartiallyLinked(flat, i) == PartiallyLinked(flat, i + 1)
  {
    var cur := PartiallyLinked(flat, i);
    var next := PartiallyLinked(flat, i + 1);
    forall m | 0 <= m < |flat|
      ensures cur[m] == next[m]
    {
      assert ChildrenUpTo(flat, m, i + 1) == ChildrenUpTo(flat, m, i);
    }
  }

  /** One step of `BuildTree`: connecting node `i` of the list linked up to `i` gives the list
      linked up to `i + 1`, unless node `i` is unlinked. */
  lemma {:induction false} LinkStep(flat: seq<IonNode>, i: nat)
    requires i < |flat|
    ensures flat[i].level > 0 ==>
              Connect(PartiallyLinked(flat, i), i) ==
                (if Unlinked(flat, i) then Err(TextFileParser(flat[i].documentLine))
                 else Ok(PartiallyLinked(flat, i + 1)))
    ensures flat[i].level <= 0 ==> !Unlinked(flat, i) && PartiallyLinked(flat, i) == PartiallyLinked(flat, i + 1)
    ensures PartiallyLinked(flat, i)[i].level == flat[i].level
  {
    var cur := PartiallyLinked(flat, i);
    assert cur[i].level == flat[i].level && cur[i].isRootNode == flat[i].isRootNode &&
           cur[i].documentLine == flat[i].documentLine;
    if flat[i].level > 0 {
      PartiallyLinkedKeepsFields(flat, i);
      SearchParentSameLevels(cur, flat, flat[i].level - 1, i);
      match ExpectedParent(flat, i)
      case None =>
        LinkNone(flat, i);
        assert SearchParent(cur, cur[i].level - 1, i).None?;
      case Some(p) =>
        LinkOne(flat, i, p);
        assert SearchParent(cur, cur[i].level - 1, i) == Some(p);
    } else {
      LinkNone(flat, i);
    }
  }

  /** `BuildTree` fails exactly when some node is unlinked: above level 0, not the root, and
      with no node one level up before it. */
  lemma BuildTreeFails(flat: seq<IonNode>)
    ensures BuildTreeSpec(flat).Err? <==> exists i :: 0 <= i < |flat| && Unlinked(flat, i)
  {
  }

  /** Fully linked, a list of unlinked nodes gives each node its expected parent and, as its
      children, the nodes expecting it, in document order. */
  lemma FullyLinked(flat: seq<IonNode>)
    requires forall m :: 0 <= m < |flat| ==> flat[m].parent.None? && flat[m].children == []
    ensures var doc := PartiallyLinked(flat, |flat|);
            forall m :: 0 <= m < |doc| ==>
              doc[m].parent == ExpectedParent(flat, m) && doc[m].children == ChildrenUpTo(flat, m, |flat|)
  {
  }

  /** The children of `m` are exactly the nodes whose expected parent is `m`. */
  lemma ChildrenAreExpected(flat: seq<IonNode>, m: nat, c: nat)
    requires m < |flat| && c < |flat|
    ensures c in ChildrenUpTo(flat, m, |flat|) <==> ExpectedParent(flat, c) == Some(m)
  {
  }

  /** On success `BuildTree` keeps every node and its fields, and gives each node the nearest
      earlier node one level up as its parent. */
  lemma BuildTreeParents(flat: seq<IonNode>)
    requires forall m :: 0 <= m < |flat| ==> flat[m].parent.None? && flat[m].children == []
    ensures BuildTreeSpec(flat).Ok? ==>
              var doc := BuildTreeSpec(flat).value;
              |doc| == |flat| &&
              forall m :: 0 <= m < |doc| ==>
                doc[m].parent == ExpectedParent(flat, m) &&
                doc[m].level == flat[m].level && doc[m].nodeName == flat[m].nodeName &&
                doc[m].documentLine == flat[m].documentLine && doc[m].isRootNode == flat[m].isRootNode &&
                doc[m].attributes == flat[m].attributes
  {
    PartiallyLinkedKeepsFields(flat, |flat|);
    FullyLinked(flat);
  }

  /** On success each node's children are, in document order, exactly the nodes whose parent
      it is. */
  lemma BuildTreeChildren(flat: seq<IonNode>)
    requires forall m :: 0 <= m < |flat| ==> flat[m].parent.None? && flat[m].children == []
    ensures BuildTreeSpec(flat).Ok? ==>
              var doc := BuildTreeSpec(flat).value;
              (forall m, c :: 0 <= m < |doc| && 0 <= c < |doc| ==> (c in doc[m].children <==> doc[c].parent == Some(m))) &&
              (forall m, a, b :: 0 <= m < |doc| && 0 <= a < b < |doc[m].children| ==> doc[m].children[a] < doc[m].children[b])
  {
    if BuildTreeSpec(flat).Ok? {
      var doc := PartiallyLinked(flat, |flat|);
      FullyLinked(flat);
      forall m, c | 0 <= m < |doc| && 0 <= c < |doc|
        ensures c in doc[m].children <==> doc[c].parent == Some(m)
      {
        ChildrenAreExpected(flat, m, c);
      }
    }
  }

  /** On success every parent comes before its node and every child after its parent: the
      nodes of the list are a tree laid out in document order. */
  lemma BuildTreeWellLinked(flat: seq<IonNode>)
    requires forall m :: 0 <= m < |flat| ==> flat[m].parent.None? && flat[m].children == []
    ensures BuildTreeSpec(flat).Ok? ==> WellLinked(BuildTreeSpec(flat).value)
  {
    FullyLinked(flat);
  }

  /** The flat parse converts drafts into unlinked nodes, one per draft, at least one. */
  lemma FlatNodesUnlinked(lines: seq<string>, rootName: string, context: Context)
    ensures var r := ParseToFlatSpec(lines, rootName, context);
            r.Ok? ==> |r.value| > 0 && forall m :: 0 <= m < |r.value| ==> r.value[m].parent.None? && r.value[m].children == []
  {
    match ParseToFlatScan(lines, rootName, context)
    case Err(_) =>
    case Ok(s) =>
      var ds := s.nodes + [s.current];
      match ConvertAll(ds)
      case Err(_) =>
      case Ok(flat) =>
        forall m | 0 <= m < |flat|
          ensures flat[m].parent.None? && flat[m].children == []
        {
          assert FromDraft(ds[m]) == Ok(flat[m]);
        }
  }

  /** A successful `FileToIonNodeReader.Parse` yields at least one node, and its nodes form a
      tree laid out in document order. */
  lemma ReaderParseShape(lines: seq<string>, rootName: string, context: Context)
    ensures var r := ReaderParseSpec(lines, rootName, context);
            r.Ok? ==> |r.value| > 0 && WellLinked(r.value)
  {
    FlatNodesUnlinked(lines, rootName, context);
    match ParseToFlatSpec(lines, rootName, context)
    case Err(_) =>
    case Ok(flat) =>
      BuildTreeParents(flat);
      BuildTreeWellLinked(flat);
  }
}
