/** Block spans form a laminar family, and every parent link names the innermost enclosing block. */
module NginxLaminar {
  import opened Text
  import opened NginxLexer
  import opened NginxEvents
  import opened NginxOffsets
  import opened NginxTree
  import opened NginxParser
  import opened NginxParserTree
  import opened NginxLists
  import opened NginxTreeEdit

  /* ---------------------------------------------------------------- in the tree */

  /** Event `i` stands between the braces of block `k`. */
  predicate Inside(f: Forest, base: nat, k: int, i: int) {
    NodeAt(f, base, k).Some? && k < i < k + 1 + Size(NodeAt(f, base, k).value.1)
  }

  /** The parent that parse_config records for event `i`. */
  function ParentOf(f: Forest, base: nat, parent: int, i: int): int {
    match f
    case End => parent
    case Directive(_, rest) => if i == base then parent else ParentOf(rest, base + 1, parent, i)
    case Block(_, kids, rest) =>
      if i == base || i == base + 1 + Size(kids) then parent
      else if i < base + 1 + Size(kids) then ParentOf(kids, base + 1, base, i)
      else ParentOf(rest, base + 2 + Size(kids), parent, i)
  }

  lemma {:induction false} NodesNest(f: Forest, base: nat, i: int, j: int)
    requires NodeAt(f, base, i).Some? && NodeAt(f, base, j).Some? && i < j
    ensures var ei, ej := i + 1 + Size(NodeAt(f, base, i).value.1), j + 1 + Size(NodeAt(f, base, j).value.1);
            ei < j || ej < ei
    decreases f
  {
    NodeBounds(f, base, i);
    NodeBounds(f, base, j);
    match f
    case Directive(_, rest) => NodesNest(rest, base + 1, i, j);
    case Block(_, kids, rest) =>
      var n := base + 2 + Size(kids);
      if i < n - 1 { if i != base { NodeBounds(kids, base + 1, i); } } else { NodeBounds(rest, n, i); }
      if j < n - 1 {
        NodeBounds(kids, base + 1, j);
        if i != base { NodesNest(kids, base + 1, i, j); }
      } else {
        NodeBounds(rest, n, j);
        if i >= n - 1 { NodesNest(rest, n, i, j); }
      }
  }

  /** `p` is the innermost block around event `i`, or `parent` when there is none. */
  ghost predicate Innermost(f: Forest, base: nat, parent: int, i: int, p: int) {
    && (p == parent || Inside(f, base, p, i))
    && (forall k {:trigger Inside(f, base, k, i)} :: Inside(f, base, k, i) ==> k <= p)
  }

  lemma InsideBlock(header: string, kids: Forest, rest: Forest, base: nat, k: int, i: int)
    requires base < i
    ensures var f, n := Block(header, kids, rest), base + 2 + Size(kids);
            Inside(f, base, k, i) <==> (if i < n - 1 then k == base || Inside(kids, base + 1, k, i) else Inside(rest, n, k, i))
  {
    var f, n := Block(header, kids, rest), base + 2 + Size(kids);
    NodeInBlock(header, kids, rest, base, k);
    hide NodeAt, Size;
    if NodeAt(kids, base + 1, k).Some? { NodeBounds(kids, base + 1, k); }
    if NodeAt(rest, n, k).Some? { NodeBounds(rest, n, k); }
  }

  lemma NodeInBlock(header: string, kids: Forest, rest: Forest, base: nat, k: int)
    ensures NodeAt(Block(header, kids, rest), base, k)
         == if k == base then Some((header, kids))
            else if k < base + 1 + Size(kids) then NodeAt(kids, base + 1, k)
            else NodeAt(rest, base + 2 + Size(kids), k)
  {
  }

  lemma {:induction false} ParentIsInnermost(f: Forest, base: nat, parent: int, i: int)
    requires parent < base <= i < base + Size(f)
    ensures Innermost(f, base, parent, i, ParentOf(f, base, parent, i))
    decreases f
  {
    hide NodeAt, Inside;
    var p := ParentOf(f, base, parent, i);
    if i == base {
      forall k | Inside(f, base, k, i)
        ensures false
      {
        InsideLater(f, base, k, i);
      }
    } else {
      match f
      case Directive(text, rest) =>
        ParentIsInnermost(rest, base + 1, parent, i);
        forall k
          ensures Inside(f, base, k, i) <==> Inside(rest, base + 1, k, i)
        {
          InsideDirective(text, rest, base, k, i);
        }
      case Block(header, kids, rest) =>
        var n := base + 2 + Size(kids);
        forall k | Inside(f, base, k, i)
          ensures if i < n - 1 then k == base || Inside(kids, base + 1, k, i) else Inside(rest, n, k, i)
        {
          InsideBlock(header, kids, rest, base, k, i);
        }
        var q := ParentOf(f, base, parent, i);
        if q != parent {
          InsideBlock(header, kids, rest, base, q, i);
        }
        if i < n - 1 {
          InsideBlock(header, kids, rest, base, base, i);
          ParentIsInnermost(kids, base + 1, base, i);
          AllInsideLater(kids, base + 1, i);
        } else if i == n - 1 {
          AllInsideLater(rest, n, i);
        } else {
          ParentIsInnermost(rest, n, parent, i);
        }
    }
  }

  lemma AllInsideLater(f: Forest, base: nat, i: int)
    ensures forall k :: Inside(f, base, k, i) ==> base <= k < i
  {
    forall k | Inside(f, base, k, i)
      ensures base <= k < i
    {
      InsideLater(f, base, k, i);
    }
  }

  lemma InsideLater(f: Forest, base: nat, k: int, i: int)
    requires Inside(f, base, k, i)
    ensures base <= k < i
  {
    NodeBounds(f, base, k);
  }

  lemma InsideDirective(text: string, rest: Forest, base: nat, k: int, i: int)
    ensures Inside(Directive(text, rest), base, k, i) <==> Inside(rest, base + 1, k, i)
  {
  }

  /* ---------------------------------------------------------------- in the text */

  /** Every record carries the parent of its opening brace. */
  lemma {:induction false} BlockParent(f: Forest, marks: seq<Mark>, base: nat, parent: int, r: BlockRec)
    requires r in Blocks(f, marks, base, parent)
    ensures r.parent == ParentOf(f, base, parent, r.id) && base <= r.id < base + Size(f)
    decreases f
  {
    hide RecAt;
    match f
    case Directive(_, rest) => BlockParent(rest, marks, base + 1, parent, r);
    case Block(header, kids, rest) =>
      RecParent(header, kids, marks, base, parent);
      if r in Blocks(kids, marks, base + 1, base) {
        BlockParent(kids, marks, base + 1, base, r);
      } else if r in Blocks(rest, marks, base + 2 + Size(kids), parent) {
        BlockParent(rest, marks, base + 2 + Size(kids), parent, r);
      }
  }

  lemma {:induction false} DirectiveParent(f: Forest, marks: seq<Mark>, base: nat, parent: int, d: DirectiveRec) returns (i: nat)
    requires d in Directives(f, marks, base, parent) && Fits(f, EventsOf(marks), base)
    ensures base <= i < base + Size(f) && i < |marks| && marks[i].StatementAt?
    ensures d == DirectiveRec(marks[i].text, marks[i].start, marks[i].at + 1, ParentOf(f, base, parent, i))
    decreases f
  {
    hide Fits, EventsOf, Flatten;
    match f
    case Directive(text, rest) =>
      FitsDirective(text, rest, EventsOf(marks), base);
      EventIsMark(marks, base);
      if d in Directives(rest, marks, base + 1, parent) {
        i := DirectiveParent(rest, marks, base + 1, parent, d);
      } else {
        i := base;
      }
    case Block(header, kids, rest) =>
      FitsBlock(header, kids, rest, EventsOf(marks), base);
      hide ParentOf;
      ParentInBlock(header, kids, rest, base, parent);
      if d in Directives(kids, marks, base + 1, base) {
        i := DirectiveParent(kids, marks, base + 1, base, d);
      } else {
        i := DirectiveParent(rest, marks, base + 2 + Size(kids), parent, d);
      }
  }

  lemma EventsOfSize(marks: seq<Mark>)
    ensures |EventsOf(marks)| == |marks|
  {
  }

  lemma EventIsMark(marks: seq<Mark>, i: nat)
    requires i < |EventsOf(marks)|
    ensures i < |marks| && EventsOf(marks)[i] == EventOf(marks[i])
  {
  }

  lemma ParentInBlock(header: string, kids: Forest, rest: Forest, base: nat, parent: int)
    ensures var f, n := Block(header, kids, rest), base + 2 + Size(kids);
            && (forall i :: base < i < n - 1 ==> ParentOf(f, base, parent, i) == ParentOf(kids, base + 1, base, i))
            && (forall i :: n <= i ==> ParentOf(f, base, parent, i) == ParentOf(rest, n, parent, i))
  {
  }

  /** The characters from `start` up to and including `last` stand between the braces of `b`. */
  predicate Encloses(b: BlockRec, start: int, last: int) { b.open < start && last < b.close }

  /** The events of `r` and the positions of its braces. */
  ghost predicate Spans(text: string, f: Forest, r: BlockRec) {
    var marks := Marks(text);
    && NodeAt(f, 0, r.id).Some?
    && var e := r.id + 1 + Size(NodeAt(f, 0, r.id).value.1);
       && e < |marks| && marks[r.id].OpenAt? && marks[e].CloseAt?
       && r.start == marks[r.id].start && r.open == marks[r.id].at && r.close == marks[e].at
  }

  lemma RecordSpans(text: string, r: BlockRec)
    requires Parse(text).Some? && r in Parse(text).value.blocks
    ensures Tree(text).Some? && Spans(text, Tree(text).value, r) && AllPlaced(text, Marks(text))
    ensures r.parent == ParentOf(Tree(text).value, 0, -1, r.id)
    ensures r.id < Size(Tree(text).value) <= |Marks(text)|
  {
    hide Parse, Tree, Blocks, Directives, Placed, NodeAt, Fits, ParentOf, AllPlaced, Run, Strip, ScanTo, EventsOf, RecAt, Marks, Size;
    ParseGivesTree(text);
    MarksAgree(text);
    var f, marks := Tree(text).value, Marks(text);
    RecordsAreNodes(f, marks, 0, -1, r);
    BlockParent(f, marks, 0, -1, r);
    NodeSpans(f, marks, r);
  }

  lemma NodeSpans(f: Forest, marks: seq<Mark>, r: BlockRec)
    requires IsNode(f, marks, 0, r) && Fits(f, EventsOf(marks), 0)
    ensures Size(f) <= |marks|
    ensures var e := r.id + 1 + Size(NodeAt(f, 0, r.id).value.1);
            && e < |marks| && marks[r.id].OpenAt? && marks[e].CloseAt?
            && r.start == marks[r.id].start && r.open == marks[r.id].at && r.close == marks[e].at
  {
    hide NodeAt;
    NodeBrackets(f, EventsOf(marks), 0, r.id);
    hide Flatten;
  }

  lemma {:induction false} NodeBrackets(f: Forest, ev: seq<Event>, base: nat, id: int)
    requires Fits(f, ev, base) && NodeAt(f, base, id).Some?
    ensures base <= id && id + 1 + Size(NodeAt(f, base, id).value.1) < |ev|
    ensures ev[id].Open? && ev[id + 1 + Size(NodeAt(f, base, id).value.1)].Close?
    decreases f
  {
    hide Fits, Flatten;
    match f
    case Directive(text, rest) =>
      FitsDirective(text, rest, ev, base);
      NodeBrackets(rest, ev, base + 1, id);
    case Block(header, kids, rest) =>
      FitsBlock(header, kids, rest, ev, base);
      if id != base {
        if id < base + 1 + Size(kids) {
          NodeBrackets(kids, ev, base + 1, id);
        } else {
          NodeBrackets(rest, ev, base + 2 + Size(kids), id);
        }
      }
  }

  /** Any two block spans are nested or disjoint. */
  lemma SpansAreLaminar(text: string, a: BlockRec, b: BlockRec)
    requires Parse(text).Some? && a in Parse(text).value.blocks && b in Parse(text).value.blocks
    requires a.id != b.id
    ensures || Encloses(a, b.start, b.close) || Encloses(b, a.start, a.close)
            || a.close < b.start || b.close < a.start
    ensures 0 <= a.start <= a.open < a.close < |text|
  {
    hide Parse, Tree, Placed, AllPlaced, NodeAt, ParentOf;
    RecordSpans(text, a);
    RecordSpans(text, b);
    OwnSpan(text, a);
    if a.id < b.id {
      Ordered(text, a, b);
    } else {
      Ordered(text, b, a);
    }
  }

  lemma OwnSpan(text: string, a: BlockRec)
    requires Tree(text).Some? && Spans(text, Tree(text).value, a) && AllPlaced(text, Marks(text))
    ensures 0 <= a.start <= a.open < a.close < |text|
  {
    hide Tree, At, Clean, NodeAt, EventsOf;
    var e := a.id + 1 + Size(NodeAt(Tree(text).value, 0, a.id).value.1);
    MarksAscend(text, Marks(text), a.id, e);
    assert Placed(text, Marks(text), a.id);
  }

  lemma Ordered(text: string, a: BlockRec, b: BlockRec)
    requires Tree(text).Some? && Spans(text, Tree(text).value, a) && Spans(text, Tree(text).value, b)
    requires AllPlaced(text, Marks(text)) && a.id < b.id
    ensures Encloses(a, b.start, b.close) || a.close < b.start
  {
    hide Tree, At, NodeAt, Placed, AllPlaced;
    var f, marks := Tree(text).value, Marks(text);
    var ea, eb := a.id + 1 + Size(NodeAt(f, 0, a.id).value.1), b.id + 1 + Size(NodeAt(f, 0, b.id).value.1);
    NodesNest(f, 0, a.id, b.id);
    if ea < b.id {
      LaterStart(text, marks, ea, b.id);
    } else {
      LaterStart(text, marks, a.id, b.id);
      MarksAscend(text, marks, eb, ea);
    }
  }

  /** A statement starts behind every earlier event. */
  lemma LaterStart(text: string, marks: seq<Mark>, j: nat, k: nat)
    requires AllPlaced(text, marks) && j < k < |marks| && !marks[k].CloseAt?
    ensures marks[j].at < marks[k].start <= marks[k].at
  {
    hide At, Clean, EventsOf;
    assert Placed(text, marks, k);
    if j < k - 1 {
      hide Placed;
      MarksAscend(text, marks, j, k - 1);
    }
  }

  /** Standing between the braces in the text is standing between them in the event order. */
  lemma EnclosesIsInside(text: string, b: BlockRec, i: nat, j: nat)
    requires Tree(text).Some? && Spans(text, Tree(text).value, b) && AllPlaced(text, Marks(text))
    requires i <= j < |Marks(text)| && !Marks(text)[i].CloseAt?
    requires Inside(Tree(text).value, 0, b.id, i) ==> j < b.id + 1 + Size(NodeAt(Tree(text).value, 0, b.id).value.1)
    ensures Encloses(b, Marks(text)[i].start, Marks(text)[j].at) <==> Inside(Tree(text).value, 0, b.id, i)
  {
    hide Tree, At, NodeAt, Placed, AllPlaced;
    var marks := Marks(text);
    var e := b.id + 1 + Size(NodeAt(Tree(text).value, 0, b.id).value.1);
    if Inside(Tree(text).value, 0, b.id, i) {
      LaterStart(text, marks, b.id, i);
      MarksAscend(text, marks, j, e);
    } else if i <= b.id {
      StartNotAfter(text, marks, i, b.id);
    } else if e < j {
      MarksAscend(text, marks, e, j);
    }
  }

  lemma StartNotAfter(text: string, marks: seq<Mark>, i: nat, k: nat)
    requires AllPlaced(text, marks) && i <= k < |marks| && !marks[i].CloseAt?
    ensures marks[i].start <= marks[k].at
  {
    hide At, Clean, EventsOf;
    assert Placed(text, marks, i);
    if i < k {
      MarksAscend(text, marks, i, k);
    }
  }

  /** `p` identifies the innermost block around the characters `start` to `last`, or is -1 if there is none. */
  ghost predicate InnermostBlock(blocks: seq<BlockRec>, start: int, last: int, p: int) {
    if p == -1 then forall c :: c in blocks ==> !Encloses(c, start, last)
    else exists a :: a in blocks && a.id == p && Encloses(a, start, last)
                     && forall c :: c in blocks && Encloses(c, start, last) ==> c == a || Encloses(c, a.start, a.close)
  }

  /** What is known of event `i`, whose statement ends with event `j`. */
  lemma InnermostAt(text: string, i: nat, j: nat)
    requires Parse(text).Some? && Tree(text).Some? && AllPlaced(text, Marks(text))
    requires i <= j < |Marks(text)| && i < Size(Tree(text).value) && !Marks(text)[i].CloseAt?
    requires forall b :: b in Parse(text).value.blocks && Inside(Tree(text).value, 0, b.id, i) ==>
               j < b.id + 1 + Size(NodeAt(Tree(text).value, 0, b.id).value.1)
    ensures InnermostBlock(Parse(text).value.blocks, Marks(text)[i].start, Marks(text)[j].at,
                           ParentOf(Tree(text).value, 0, -1, i))
  {
    hide Parse, Tree, NodeAt, Placed, AllPlaced, Spans, Inside, ParentOf, Encloses;
    var f, blocks, marks := Tree(text).value, Parse(text).value.blocks, Marks(text);
    var start, last, p := marks[i].start, marks[j].at, ParentOf(f, 0, -1, i);
    ParentIsInnermost(f, 0, -1, i);
    forall c | c in blocks
      ensures Encloses(c, start, last) <==> Inside(f, 0, c.id, i)
    {
      RecordSpans(text, c);
      EnclosesIsInside(text, c, i, j);
    }
    if p != -1 {
      var a := InsideIsRecord(text, p, i);
      forall c | c in blocks && Encloses(c, start, last)
        ensures c == a || Encloses(c, a.start, a.close)
      {
        Chain(text, c, a, i);
      }
    }
  }

  lemma InsideIsRecord(text: string, p: int, i: nat) returns (a: BlockRec)
    requires Parse(text).Some? && Tree(text).Some? && Inside(Tree(text).value, 0, p, i)
    ensures a in Parse(text).value.blocks && a.id == p
  {
    hide Parse, Tree, NodeAt;
    ParseGivesTree(text);
    a := NodesAreRecords(Tree(text).value, Marks(text), 0, -1, p);
  }

  /** Of two blocks around one event, the one opened first encloses the other. */
  lemma Chain(text: string, c: BlockRec, a: BlockRec, i: nat)
    requires Parse(text).Some? && Tree(text).Some? && c in Parse(text).value.blocks && a in Parse(text).value.blocks
    requires Inside(Tree(text).value, 0, c.id, i) && Inside(Tree(text).value, 0, a.id, i) && c.id <= a.id
    ensures c == a || Encloses(c, a.start, a.close)
  {
    hide Parse, Tree, NodeAt, Placed, AllPlaced, ParentOf;
    RecordSpans(text, c);
    RecordSpans(text, a);
    var f, marks := Tree(text).value, Marks(text);
    if c.id == a.id {
      SameRecord(text, c, a);
    } else {
      NodesNest(f, 0, c.id, a.id);
      Ordered(text, c, a);
      var ec := c.id + 1 + Size(NodeAt(f, 0, c.id).value.1);
      LaterStart(text, marks, c.id, a.id);
      OwnSpan(text, a);
      if a.close >= c.close {
        MarksAscend(text, marks, a.id, ec);
      }
    }
  }

  lemma SameRecord(text: string, c: BlockRec, a: BlockRec)
    requires Parse(text).Some? && c in Parse(text).value.blocks && a in Parse(text).value.blocks && c.id == a.id
    ensures c == a
  {
    hide Parse, Tree, NodeAt, ParentOf, Spans, Placed, AllPlaced, Blocks, Directives;
    RecordSpans(text, c);
    RecordSpans(text, a);
    ParseGivesTree(text);
    RecordsAreNodes(Tree(text).value, Marks(text), 0, -1, c);
    RecordsAreNodes(Tree(text).value, Marks(text), 0, -1, a);
  }

  /** The parent recorded for every block and directive is its innermost enclosing block. */
  lemma ParentsAreInnermost(text: string)
    requires Parse(text).Some?
    ensures forall r :: r in Parse(text).value.blocks ==>
              InnermostBlock(Parse(text).value.blocks, r.start, r.close, r.parent)
    ensures forall d :: d in Parse(text).value.directives ==>
              InnermostBlock(Parse(text).value.blocks, d.start, d.end - 1, d.parent)
  {
    hide Parse, Tree, InnermostBlock;
    forall r | r in Parse(text).value.blocks
      ensures InnermostBlock(Parse(text).value.blocks, r.start, r.close, r.parent)
    {
      BlockIsInnermost(text, r);
    }
    forall d | d in Parse(text).value.directives
      ensures InnermostBlock(Parse(text).value.blocks, d.start, d.end - 1, d.parent)
    {
      DirectiveIsInnermost(text, d);
    }
  }

  lemma BlockIsInnermost(text: string, r: BlockRec)
    requires Parse(text).Some? && r in Parse(text).value.blocks
    ensures InnermostBlock(Parse(text).value.blocks, r.start, r.close, r.parent)
  {
    hide Parse, Tree, InnermostBlock, NodeAt, ParentOf, Placed, AllPlaced;
    RecordSpans(text, r);
    var f := Tree(text).value;
    var e := r.id + 1 + Size(NodeAt(f, 0, r.id).value.1);
    forall b | b in Parse(text).value.blocks && Inside(f, 0, b.id, r.id)
      ensures e < b.id + 1 + Size(NodeAt(f, 0, b.id).value.1)
    {
      NodesNest(f, 0, b.id, r.id);
    }
    InnermostAt(text, r.id, e);
  }

  lemma DirectiveIsInnermost(text: string, d: DirectiveRec)
    requires Parse(text).Some? && d in Parse(text).value.directives
    ensures InnermostBlock(Parse(text).value.blocks, d.start, d.end - 1, d.parent)
  {
    hide Parse, Tree, InnermostBlock, NodeAt, ParentOf, Placed, AllPlaced, Fits, Run, Strip, ScanTo, Directives, Blocks, Marks, EventsOf;
    ParseGivesTree(text);
    MarksAgree(text);
    EventsOfSize(Marks(text));
    var i := DirectiveParent(Tree(text).value, Marks(text), 0, -1, d);
    InnermostAt(text, i, i);
  }
}
