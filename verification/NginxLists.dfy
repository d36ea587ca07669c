/** The parent links of the flat lists: the children of a block in the list are its children in the tree. */
module NginxLists {
  import opened Text
  import opened NginxEvents
  import opened NginxTree
  import opened NginxParser
  import opened NginxTreeEdit
  import opened NginxRules

  /** `[block for block in blocks if block.parent is b]`, b given by its identity. */
  function ChildrenOf(blocks: seq<BlockRec>, id: int): seq<BlockRec> {
    if blocks == [] then []
    else (if blocks[0].parent == id then [blocks[0]] else []) + ChildrenOf(blocks[1..], id)
  }

  /** `[directive.text for directive in directives if directive.parent is b]`. */
  function TextsOf(directives: seq<DirectiveRec>, id: int): seq<string> {
    if directives == [] then []
    else (if directives[0].parent == id then [directives[0].text] else []) + TextsOf(directives[1..], id)
  }

  /** The blocks of one level. */
  function TopBlocks(f: Forest, marks: seq<Mark>, base: nat, parent: int): seq<BlockRec> {
    match f
    case End => []
    case Directive(_, rest) => TopBlocks(rest, marks, base + 1, parent)
    case Block(header, kids, rest) =>
      [RecAt(header, kids, marks, base, parent)] + TopBlocks(rest, marks, base + 2 + Size(kids), parent)
  }

  lemma ConcatAssoc<T>(a: seq<T>, b: seq<T>, c: seq<T>)
    ensures (a + b) + c == a + (b + c)
  {
  }

  lemma {:induction false} ChildrenConcat(a: seq<BlockRec>, b: seq<BlockRec>, id: int)
    ensures ChildrenOf(a + b, id) == ChildrenOf(a, id) + ChildrenOf(b, id)
  {
    if a == [] {
      assert a + b == b;
    } else {
      var rest := a[1..];
      ChildrenConcat(rest, b, id);
      assert (a + b)[1..] == rest + b && (a + b)[0] == a[0];
      var head := if a[0].parent == id then [a[0]] else [];
      ConcatAssoc(head, ChildrenOf(rest, id), ChildrenOf(b, id));
    }
  }

  lemma {:induction false} TextsConcat(a: seq<DirectiveRec>, b: seq<DirectiveRec>, id: int)
    ensures TextsOf(a + b, id) == TextsOf(a, id) + TextsOf(b, id)
  {
    if a == [] {
      assert a + b == b;
    } else {
      var rest := a[1..];
      TextsConcat(rest, b, id);
      assert (a + b)[1..] == rest + b && (a + b)[0] == a[0];
      var head := if a[0].parent == id then [a[0].text] else [];
      ConcatAssoc(head, TextsOf(rest, id), TextsOf(b, id));
    }
  }

  lemma ChildrenOfOne(r: BlockRec, id: int)
    ensures ChildrenOf([r], id) == if r.parent == id then [r] else []
  {
    assert [r][1..] == [];
  }

  /** A forest has no block before its first event. */
  lemma NodeOutside(f: Forest, base: nat, id: int)
    requires id < base
    ensures NodeAt(f, base, id).None?
  {
    hide NodeAt;
    if NodeAt(f, base, id).Some? {
      NodeBounds(f, base, id);
    }
  }

  /** The children listed for `id`: the top level when `id` is the enclosing block, else a body inside. */
  function ListedChildren(f: Forest, marks: seq<Mark>, base: nat, parent: int, id: int): seq<BlockRec> {
    if id < base || base + Size(f) <= id then (if id == parent then TopBlocks(f, marks, base, parent) else [])
    else if NodeAt(f, base, id).Some? then TopBlocks(NodeAt(f, base, id).value.1, marks, id + 1, id)
    else []
  }

  lemma {:induction false} ChildrenInTree(f: Forest, marks: seq<Mark>, base: nat, parent: int, id: int)
    requires parent < base
    ensures ChildrenOf(Blocks(f, marks, base, parent), id) == ListedChildren(f, marks, base, parent, id)
    decreases f
  {
    hide RecAt, MarkAt, ChildrenOf;
    match f
    case End =>
      NoChildren(id);
    case Directive(_, rest) =>
      ChildrenInTree(rest, marks, base + 1, parent, id);
      NodeOutside(rest, base + 1, base);
    case Block(header, kids, rest) =>
      ChildrenInTree(kids, marks, base + 1, base, id);
      ChildrenInTree(rest, marks, base + 2 + Size(kids), parent, id);
      hide ListedChildren, Blocks;
      ChildrenAreSplit(header, kids, rest, marks, base, parent, id);
      ListedInBlock(header, kids, rest, marks, base, parent, id);
  }

  lemma ChildrenAreSplit(header: string, kids: Forest, rest: Forest, marks: seq<Mark>, base: nat, parent: int, id: int)
    ensures ChildrenOf(Blocks(Block(header, kids, rest), marks, base, parent), id)
         == (if id == parent then [RecAt(header, kids, marks, base, parent)] else [])
            + ChildrenOf(Blocks(kids, marks, base + 1, base), id)
            + ChildrenOf(Blocks(rest, marks, base + 2 + Size(kids), parent), id)
  {
    hide RecAt, ChildrenOf, Size;
    var r, n := RecAt(header, kids, marks, base, parent), base + 2 + Size(kids);
    var b, t := Blocks(kids, marks, base + 1, base), Blocks(rest, marks, n, parent);
    assert Blocks(Block(header, kids, rest), marks, base, parent) == ([r] + b) + t;
    hide Blocks;
    ChildrenConcat([r] + b, t, id);
    ChildrenConcat([r], b, id);
    ChildrenOfOne(r, id);
    RecParent(header, kids, marks, base, parent);
  }

  lemma ListedInBlock(header: string, kids: Forest, rest: Forest, marks: seq<Mark>, base: nat, parent: int, id: int)
    requires parent < base
    ensures ListedChildren(Block(header, kids, rest), marks, base, parent, id)
         == (if id == parent then [RecAt(header, kids, marks, base, parent)] else [])
            + ListedChildren(kids, marks, base + 1, base, id)
            + ListedChildren(rest, marks, base + 2 + Size(kids), parent, id)
  {
    hide RecAt, TopBlocks, NodeAt, Size, ListedChildren;
    var r := if id == parent then [RecAt(header, kids, marks, base, parent)] else [];
    var k := ListedChildren(kids, marks, base + 1, base, id);
    var t := ListedChildren(rest, marks, base + 2 + Size(kids), parent, id);
    var all := ListedChildren(Block(header, kids, rest), marks, base, parent, id);
    if id < base {
      ListedAround(header, kids, rest, marks, base, parent, id);
    } else if id < base + 1 + Size(kids) {
      ListedInKids(header, kids, rest, marks, base, parent, id);
    } else {
      ListedInRest(header, kids, rest, marks, base, parent, id);
    }
    OneOfThree(r, k, t);
  }

  lemma ListedAround(header: string, kids: Forest, rest: Forest, marks: seq<Mark>, base: nat, parent: int, id: int)
    requires parent < base && id < base
    ensures ListedChildren(kids, marks, base + 1, base, id) == []
    ensures ListedChildren(Block(header, kids, rest), marks, base, parent, id)
         == (if id == parent then [RecAt(header, kids, marks, base, parent)] else [])
            + ListedChildren(rest, marks, base + 2 + Size(kids), parent, id)
  {
    hide RecAt, TopBlocks, NodeAt, Size;
    BlockParts(header, kids, rest, marks, base, parent, id);
  }

  lemma ListedInKids(header: string, kids: Forest, rest: Forest, marks: seq<Mark>, base: nat, parent: int, id: int)
    requires parent < base <= id < base + 1 + Size(kids)
    ensures ListedChildren(rest, marks, base + 2 + Size(kids), parent, id) == []
    ensures ListedChildren(Block(header, kids, rest), marks, base, parent, id) == ListedChildren(kids, marks, base + 1, base, id)
  {
    hide RecAt, TopBlocks, NodeAt, Size;
    BlockParts(header, kids, rest, marks, base, parent, id);
  }

  lemma ListedInRest(header: string, kids: Forest, rest: Forest, marks: seq<Mark>, base: nat, parent: int, id: int)
    requires parent < base && base + 1 + Size(kids) <= id
    ensures ListedChildren(kids, marks, base + 1, base, id) == []
    ensures ListedChildren(Block(header, kids, rest), marks, base, parent, id)
         == ListedChildren(rest, marks, base + 2 + Size(kids), parent, id)
  {
    hide RecAt, TopBlocks, NodeAt, Size;
    BlockParts(header, kids, rest, marks, base, parent, id);
    NodeOutside(rest, base + 2 + Size(kids), base + 1 + Size(kids));
  }

  lemma OneOfThree<T>(a: seq<T>, b: seq<T>, c: seq<T>)
    ensures b == [] ==> a + b + c == a + c
    ensures a == [] && c == [] ==> a + b + c == b
    ensures a == [] && b == [] ==> a + b + c == c
  {
  }

  lemma BlockParts(header: string, kids: Forest, rest: Forest, marks: seq<Mark>, base: nat, parent: int, id: int)
    ensures var f, n := Block(header, kids, rest), base + 2 + Size(kids);
            && Size(f) == 2 + Size(kids) + Size(rest)
            && TopBlocks(f, marks, base, parent) == [RecAt(header, kids, marks, base, parent)] + TopBlocks(rest, marks, n, parent)
            && NodeAt(f, base, id) == (if id == base then Some((header, kids)) else if id < n - 1 then NodeAt(kids, base + 1, id)
                                       else NodeAt(rest, n, id))
  {
    hide RecAt;
  }

  lemma NoChildren(id: int)
    ensures ChildrenOf([], id) == []
  {
  }

  lemma RecParent(header: string, kids: Forest, marks: seq<Mark>, base: nat, parent: int)
    ensures RecAt(header, kids, marks, base, parent).parent == parent
    ensures RecAt(header, kids, marks, base, parent).id == base
    ensures RecAt(header, kids, marks, base, parent).header == header
  {
  }

  function ListedTexts(f: Forest, base: nat, parent: int, id: int): seq<string> {
    if id < base || base + Size(f) <= id then (if id == parent then Texts(f) else [])
    else if NodeAt(f, base, id).Some? then Texts(NodeAt(f, base, id).value.1)
    else []
  }

  lemma {:induction false} TextsInTree(f: Forest, marks: seq<Mark>, base: nat, parent: int, id: int)
    requires parent < base
    ensures TextsOf(Directives(f, marks, base, parent), id) == ListedTexts(f, base, parent, id)
    decreases f
  {
    hide MarkAt, TextsOf;
    match f
    case End =>
      NoTexts(id);
    case Directive(text, rest) =>
      TextsInTree(rest, marks, base + 1, parent, id);
      var d := DirectiveRec(text, StartOf(MarkAt(marks, base)), MarkAt(marks, base).at + 1, parent);
      TextsConcat([d], Directives(rest, marks, base + 1, parent), id);
      TextsOfOne(d, id);
      NodeOutside(rest, base + 1, base);
    case Block(header, kids, rest) =>
      var n := base + 2 + Size(kids);
      TextsInTree(kids, marks, base + 1, base, id);
      TextsInTree(rest, marks, n, parent, id);
      NodeOutside(rest, n, n - 1);
      TextsConcat(Directives(kids, marks, base + 1, base), Directives(rest, marks, n, parent), id);
  }

  lemma NoTexts(id: int)
    ensures TextsOf([], id) == []
  {
  }

  lemma TextsOfOne(d: DirectiveRec, id: int)
    ensures TextsOf([d], id) == if d.parent == id then [d.text] else []
  {
    assert [d][1..] == [];
  }

  /** Every record of the list is a node of the tree with its header, offsets and body. */
  ghost predicate IsNode(f: Forest, marks: seq<Mark>, base: nat, r: BlockRec) {
    var node := NodeAt(f, base, r.id);
    && node.Some?
    && r == RecAt(node.value.0, node.value.1, marks, r.id, r.parent)
  }

  lemma {:induction false} RecordsAreNodes(f: Forest, marks: seq<Mark>, base: nat, parent: int, r: BlockRec)
    requires r in Blocks(f, marks, base, parent)
    ensures IsNode(f, marks, base, r) && base <= r.id < base + Size(f)
    decreases f
  {
    hide *;
    match f
    case End => NoBlocks(marks, base, parent);
    case Directive(text, rest) =>
      NodeOfTail(text, rest, marks, base, parent, r);
      RecordsAreNodes(rest, marks, base + 1, parent, r);
    case Block(header, kids, rest) =>
      BlocksParts(header, kids, rest, marks, base, parent, r);
      RootIsNode(header, kids, rest, marks, base, parent);
      if r in Blocks(kids, marks, base + 1, base) {
        RecordsAreNodes(kids, marks, base + 1, base, r);
        NodeOfPart(header, kids, rest, marks, base, r);
      } else if r in Blocks(rest, marks, base + 2 + Size(kids), parent) {
        RecordsAreNodes(rest, marks, base + 2 + Size(kids), parent, r);
        NodeOfPart(header, kids, rest, marks, base, r);
      }
  }

  lemma NoBlocks(marks: seq<Mark>, base: nat, parent: int)
    ensures Blocks(End, marks, base, parent) == []
  {
  }

  lemma NodeOfTail(text: string, rest: Forest, marks: seq<Mark>, base: nat, parent: int, r: BlockRec)
    ensures var f := Directive(text, rest);
            && Size(f) == 1 + Size(rest) && Blocks(f, marks, base, parent) == Blocks(rest, marks, base + 1, parent)
            && IsNode(f, marks, base, r) == IsNode(rest, marks, base + 1, r)
  {
    hide RecAt;
  }

  lemma BlocksParts(header: string, kids: Forest, rest: Forest, marks: seq<Mark>, base: nat, parent: int, r: BlockRec)
    requires r in Blocks(Block(header, kids, rest), marks, base, parent)
    ensures || r == RecAt(header, kids, marks, base, parent) || r in Blocks(kids, marks, base + 1, base)
            || r in Blocks(rest, marks, base + 2 + Size(kids), parent)
  {
    hide RecAt, Size;
  }

  lemma RootIsNode(header: string, kids: Forest, rest: Forest, marks: seq<Mark>, base: nat, parent: int)
    ensures var f, r := Block(header, kids, rest), RecAt(header, kids, marks, base, parent);
            IsNode(f, marks, base, r) && base <= r.id < base + Size(f)
  {
  }

  lemma NodeOfPart(header: string, kids: Forest, rest: Forest, marks: seq<Mark>, base: nat, r: BlockRec)
    ensures var f, n := Block(header, kids, rest), base + 2 + Size(kids);
            && Size(f) == 2 + Size(kids) + Size(rest)
            && (IsNode(kids, marks, base + 1, r) && base + 1 <= r.id < n - 1 ==> IsNode(f, marks, base, r))
            && (IsNode(rest, marks, n, r) && n <= r.id ==> IsNode(f, marks, base, r))
  {
    hide RecAt;
    BlockParts(header, kids, rest, marks, base, 0, r.id);
    hide NodeAt, Size;
  }

  /** Every node of the tree is in the list. */
  lemma {:induction false} NodesAreRecords(f: Forest, marks: seq<Mark>, base: nat, parent: int, id: int) returns (r: BlockRec)
    requires NodeAt(f, base, id).Some?
    ensures r in Blocks(f, marks, base, parent) && r.id == id
    decreases f
  {
    hide MarkAt;
    match f
    case Directive(_, rest) =>
      r := NodesAreRecords(rest, marks, base + 1, parent, id);
    case Block(header, kids, rest) =>
      if id == base {
        r := RecAt(header, kids, marks, base, parent);
      } else if id < base + 1 + Size(kids) {
        r := NodesAreRecords(kids, marks, base + 1, base, id);
      } else {
        r := NodesAreRecords(rest, marks, base + 2 + Size(kids), parent, id);
      }
  }
}
