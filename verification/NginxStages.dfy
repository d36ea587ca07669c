/** Each stage of rewrite_direct_v1 as an edit of the tree of its input. */
module NginxStages {
  import opened Text
  import opened NginxLexer
  import opened NginxEvents
  import opened NginxOffsets
  import opened NginxTree
  import opened NginxParser
  import opened NginxParserTree
  import opened NginxLists
  import opened NginxTreeEdit
  import opened NginxRules
  import opened NginxSplice
  import opened NginxSnippets
  import opened NginxRewrite
  import opened NginxCommute

  /* ---------------------------------------------------------------- a block of a parsed text */

  lemma {:induction false} NodeFits(f: Forest, ev: seq<Event>, base: nat, id: int)
    requires Fits(f, ev, base) && NodeAt(f, base, id).Some?
    ensures var (header, kids) := NodeAt(f, base, id).value;
            && base <= id && id + 1 + Size(kids) < |ev|
            && ev[id] == Open(header) && ev[id + 1 + Size(kids)] == Close
            && Fits(kids, ev, id + 1)
    decreases f
  {
    hide Fits;
    match f
    case Directive(text, rest) =>
      FitsDirective(text, rest, ev, base);
      NodeFits(rest, ev, base + 1, id);
    case Block(header, kids, rest) =>
      FitsBlock(header, kids, rest, ev, base);
      if id != base {
        if id < base + 1 + Size(kids) {
          NodeFits(kids, ev, base + 1, id);
        } else {
          NodeFits(rest, ev, base + 2 + Size(kids), id);
        }
      }
  }

  /** What the lists say of block `b`, in terms of the tree. */
  ghost predicate Located(text: string, b: BlockRec, kids: Forest) {
    var marks := Marks(text);
    && Tree(text).Some?
    && NodeAt(Tree(text).value, 0, b.id) == Some((b.header, kids))
    && Run(INIT, text).out == Flatten(Tree(text).value) == EventsOf(marks)
    && AllPlaced(text, marks)
    && Parse(text).Some?
    && ChildrenOf(Parse(text).value.blocks, b.id) == TopBlocks(kids, marks, b.id + 1, b.id)
    && TextsOf(Parse(text).value.directives, b.id) == Texts(kids)
    && Framed(marks, b, kids)
  }

  /** The braces of `b` and the marks of its body. */
  ghost predicate Framed(marks: seq<Mark>, b: BlockRec, kids: Forest) {
    var e := b.id + 1 + Size(kids);
    && e < |marks| && Fits(kids, EventsOf(marks), b.id + 1)
    && marks[b.id].OpenAt? && b.start == marks[b.id].start && b.open == marks[b.id].at
    && marks[e].CloseAt? && b.close == marks[e].at
  }

  lemma Locate(text: string, b: BlockRec) returns (kids: Forest)
    requires Parse(text).Some? && b in Parse(text).value.blocks
    ensures Located(text, b, kids)
  {
    hide Run, Build, Blocks, Directives, Assemble, ScanTo, Placed, NodeAt, Fits, Flatten, TopBlocks, Texts, ChildrenOf, TextsOf, Strip;
    var marks := Marks(text);
    ParseGivesTree(text);
    TreeGivesEvents(text);
    MarksAgree(text);
    var f := Tree(text).value;
    RecordsAreNodes(f, marks, 0, -1, b);
    var node := NodeAt(f, 0, b.id).value;
    kids := node.1;
    NodeFits(f, EventsOf(marks), 0, b.id);
    ChildrenInTree(f, marks, 0, -1, b.id);
    TextsInTree(f, marks, 0, -1, b.id);
    FrameFromNode(marks, b, node.0, kids);
  }

  lemma FrameFromNode(marks: seq<Mark>, b: BlockRec, header: string, kids: Forest)
    requires var e := b.id + 1 + Size(kids);
             && e < |marks| && Fits(kids, EventsOf(marks), b.id + 1)
             && EventOf(marks[b.id]) == Open(header) && EventOf(marks[e]) == Close
             && b == RecAt(header, kids, marks, b.id, b.parent)
    ensures Framed(marks, b, kids) && b.header == header
  {
    hide Fits;
  }

  /* ---------------------------------------------------------------- removals and insertion */

  const DIRECT_TREE: Forest :=
    (DirectIsSafe(); Block(Shlex.Join(DIRECT_HEADER), LeafTexts(DIRECT_LINES), End))

  const UPSTREAM_TREE: Forest :=
    (UpstreamIsSafe(); Block(Shlex.Join(UPSTREAM_HEADER), LeafTexts(UPSTREAM_LINES), End))

  import Shlex

  /** The new location when the unfinished text `p` precedes it in the server block. */
  function DirectAfter(p: string): Forest {
    DirectIsSafe();
    Block(HeaderAfter(p, "    ", DIRECT_HEADER), LeafTexts(DIRECT_LINES), End)
  }

  lemma DirectAfterBlank(p: string)
    requires Blank(p)
    ensures DirectAfter(p) == DIRECT_TREE
  {
    hide Shlex.Join, HeaderAfter, LeafTexts;
    DirectIsSafe();
    IndentIsBlank("    ");
    HeaderFacts(p, "    ", DIRECT_HEADER);
  }

  /** What stands unfinished in front of the inserted location. */
  function Unfinished(text: string, close: nat): string
    requires close <= |text|
  {
    At(text, close).pending + if close > 0 && text[close - 1] == '\n' then "" else "\n"
  }

  lemma InsertionMatches(text: string, marks: seq<Mark>, e: nat)
    requires AllPlaced(text, marks) && e < |marks| && marks[e].CloseAt? && marks[e].at < |text|
    ensures Matches(text, InsertionOf(text, marks[e].at), Edit(e, e, Flatten(DirectAfter(Unfinished(text, marks[e].at)))))
  {
    hide Run, Blank, BlockText, Lines, LeafTexts, Shlex.Join, HeaderAfter, SafeLines, SafeWords;
    assert Placed(text, marks, e);
    var close := marks[e].at;
    DirectIsSafe();
    IndentOfFour();
    var p, u := At(text, close).pending, Unfinished(text, close);
    var prefix := if close > 0 && text[close - 1] == '\n' then "" else "\n";
    PrefixIsPlain();
    RunPlain(Machine(Code, p, []), prefix);
    RunConcat(Machine(Code, p, []), prefix, DIRECT_LOCATION);
    RunBlock(u, "    ", DIRECT_HEADER, DIRECT_LINES);
  }

  lemma IndentOfFour()
    ensures Indent("    ") && Indent("")
  {
  }

  lemma PrefixIsPlain()
    ensures Plain("") && Plain("\n")
  {
  }

  lemma AppendLast(text: string, marks: seq<Mark>, es: seq<Edit<char>>, xs: seq<Edit<Event>>, lo: nat, hi: nat,
                   e: Edit<char>, x: Edit<Event>)
    requires EditsFit(text, marks, es, xs, lo, hi) && Matches(text, e, x) && e.start == e.end == hi <= |text|
    ensures AllMatch(text, es + [e], xs + [x])
  {
    hide Matches, At, Blank, FirstAfter;
    var fs := es + [e];
    forall i | 0 <= i < |fs|
      ensures fs[i].start <= fs[i].end <= StartOr(fs, i + 1, |text|)
    {
      if i < |es| {
        assert fs[i] == es[i];
        assert StartOr(fs, i + 1, |text|) == StartOr(es, i + 1, hi);
      }
    }
  }

  /** The ids of the children that are removed. */
  function RemovedIds(text: string, children: seq<BlockRec>): set<nat> {
    set i | 0 <= i < |children| && RemovedBlock(text, children[i]) == Ok(true) :: children[i].id
  }

  lemma {:induction false} TopIdsAscend(f: Forest, marks: seq<Mark>, base: nat, parent: int, i: nat)
    requires i < |TopBlocks(f, marks, base, parent)|
    ensures TopBlocks(f, marks, base, parent)[i].id >= base
    ensures forall j :: 0 <= j < i ==> TopBlocks(f, marks, base, parent)[j].id < TopBlocks(f, marks, base, parent)[i].id
    decreases f
  {
    hide RecAt;
    match f
    case Directive(_, rest) => TopIdsAscend(rest, marks, base + 1, parent, i);
    case Block(header, kids, rest) =>
      RecParent(header, kids, marks, base, parent);
      if i > 0 {
        TopIdsAscend(rest, marks, base + 2 + Size(kids), parent, i - 1);
      }
  }

  lemma RemovedIdsDrop(text: string, f: Forest, marks: seq<Mark>, base: nat, parent: int)
    ensures DropsRemoved(text, TopBlocks(f, marks, base, parent), RemovedIds(text, TopBlocks(f, marks, base, parent)))
  {
    hide RemovedBlock, TopBlocks;
    var blocks := TopBlocks(f, marks, base, parent);
    forall i | 0 <= i < |blocks|
      ensures blocks[i].id in RemovedIds(text, blocks) <==> RemovedBlock(text, blocks[i]) == Ok(true)
    {
      if blocks[i].id in RemovedIds(text, blocks) {
        var j :| 0 <= j < |blocks| && RemovedBlock(text, blocks[j]) == Ok(true) && blocks[j].id == blocks[i].id;
        TopIdsAscend(f, marks, base, parent, i);
        TopIdsAscend(f, marks, base, parent, j);
      }
    }
  }

  /* ---------------------------------------------------------------- trees that keep their headers */

  lemma {:induction false} HeadedAppend(f: Forest, g: Forest)
    requires Headed(f) && Headed(g)
    ensures Headed(Append(f, g))
  {
    match f
    case End =>
    case Directive(_, rest) => HeadedAppend(rest, g);
    case Block(_, _, rest) => HeadedAppend(rest, g);
  }

  lemma {:induction false} HeadedPrune(f: Forest, base: nat, drop: set<nat>)
    requires Headed(f)
    ensures Headed(Prune(f, base, drop))
  {
    match f
    case End =>
    case Directive(_, rest) => HeadedPrune(rest, base + 1, drop);
    case Block(_, kids, rest) => HeadedPrune(rest, base + 2 + Size(kids), drop);
  }

  lemma {:induction false} HeadedGate(f: Forest, gate: string)
    requires Headed(f)
    ensures Headed(Gate(f, gate))
  {
    hide NeedsGate, Texts;
    match f
    case End =>
    case Directive(_, rest) => HeadedGate(rest, gate);
    case Block(_, _, rest) => HeadedGate(rest, gate);
  }

  lemma {:induction false} HeadedSetKids(f: Forest, base: nat, id: int, body: Forest)
    requires Headed(f) && Headed(body)
    ensures Headed(SetKids(f, base, id, body))
    ensures NodeAt(f, base, id).Some? ==> Headed(NodeAt(f, base, id).value.1)
  {
    match f
    case End =>
    case Directive(_, rest) => HeadedSetKids(rest, base + 1, id, body);
    case Block(_, kids, rest) =>
      HeadedSetKids(kids, base + 1, id, body);
      HeadedSetKids(rest, base + 2 + Size(kids), id, body);
  }

  lemma {:induction false} HeadedLeaves(lines: seq<seq<string>>)
    requires SafeLines(lines)
    ensures Headed(LeafTexts(lines))
  {
    hide Shlex.Join, SafeWord;
    if lines != [] {
      HeadedLeaves(lines[1..]);
    }
  }

  lemma DirectIsHeaded(p: string)
    ensures Headed(DirectAfter(p))
  {
    hide Shlex.Join, HeaderAfter, LeafTexts, SafeLines, SafeWords;
    DirectIsSafe();
    HeadedLeaves(DIRECT_LINES);
    IndentIsBlank("    ");
    HeaderFacts(p, "    ", DIRECT_HEADER);
  }

  /* ---------------------------------------------------------------- first stage */

  /** The server body after the first stage. */
  function DirectBody(text: string, b: BlockRec, kids: Forest, children: seq<BlockRec>): Forest
    requires 0 <= b.close <= |text|
  {
    Append(Prune(kids, b.id + 1, RemovedIds(text, children)), DirectAfter(Unfinished(text, b.close)))
  }

  lemma LocatedBounds(text: string, b: BlockRec, kids: Forest)
    requires Located(text, b, kids)
    ensures 0 <= b.close < |text| && b.close == Marks(text)[b.id + 1 + Size(kids)].at
  {
    hide Run, Flatten, NodeAt, TopBlocks, Texts, ChildrenOf, TextsOf, StartPlaced, At, Fits, Marks, Parse, Tree, EventsOf;
    assert Placed(text, Marks(text), b.id + 1 + Size(kids));
  }

  /** Removing blocks and inserting the location in the text is the same as doing it in the tree. */
  lemma DirectEvents(text: string, b: BlockRec, kids: Forest, es: seq<Edit<char>>)
    requires Located(text, b, kids) && 0 <= b.close < |text|
    requires Removals(text, ChildrenOf(Parse(text).value.blocks, b.id)) == Ok(es)
    ensures var t := ApplyAll(text, es + [InsertionOf(text, b.close)]);
            var children := ChildrenOf(Parse(text).value.blocks, b.id);
            var x := Edit(b.id + 1 + Size(kids), b.id + 1 + Size(kids), Flatten(DirectAfter(Unfinished(text, b.close))));
            && Run(INIT, t).out
            == ApplyAll(Flatten(Tree(text).value), PruneEdits(kids, b.id + 1, RemovedIds(text, children)) + [x])
            && Run(INIT, t).lex == Run(INIT, text).lex
            && (Blank(Run(INIT, t).pending) <==> Blank(Run(INIT, text).pending))
  {
    hide Run, Flatten, NodeAt, TopBlocks, Texts, ChildrenOf, TextsOf, At, Fits, ApplyAll, Blank, Placed,
         DirectAfter, Unfinished, InsertionOf, RemovedIds, DropsRemoved, Matches, Removals, EditsFit, Tree, Parse;
    var marks, e := Marks(text), b.id + 1 + Size(kids);
    LocatedBounds(text, b, kids);
    var children := TopBlocks(kids, marks, b.id + 1, b.id);
    var drop := RemovedIds(text, children);
    RemovedIdsDrop(text, kids, marks, b.id + 1, b.id);
    RemovalsFit(text, marks, kids, b.id + 1, b.id, e, es, drop);
    InsertionMatches(text, marks, e);
    var x := Edit(e, e, Flatten(DirectAfter(Unfinished(text, b.close))));
    InsertionIsAt(text, b.close);
    AppendLast(text, marks, es, PruneEdits(kids, b.id + 1, drop), b.id + 1, b.close, InsertionOf(text, b.close), x);
    EditsCommute(text, es + [InsertionOf(text, b.close)], PruneEdits(kids, b.id + 1, drop) + [x]);
  }

  lemma InsertionIsAt(text: string, at: nat)
    ensures InsertionOf(text, at).start == InsertionOf(text, at).end == at
  {
  }

  /** Pruning the body of block `id` and putting `g` at its end, on the events of the whole tree. */
  lemma PruneInside(f: Forest, id: nat, kids: Forest, drop: set<nat>, g: Forest)
    requires NodeAt(f, 0, id).Some? && NodeAt(f, 0, id).value.1 == kids
    ensures ApplyAll(Flatten(f), PruneEdits(kids, id + 1, drop)
                                 + [Edit(id + 1 + Size(kids), id + 1 + Size(kids), Flatten(g))])
         == Flatten(SetKids(f, 0, id, Append(Prune(kids, id + 1, drop), g)))
  {
    hide Flatten, ApplyAll, Splice, NodeAt, SetKids, Prune, PruneEdits;
    var e := id + 1 + Size(kids);
    var body := Append(Prune(kids, id + 1, drop), g);
    SetKidsFlattens(f, 0, id, body);
    var ev := Flatten(f);
    var pre, post := ev[..id + 1], ev[e..];
    assert ev == pre + Flatten(kids) + post;
    PruneFlattens(kids, drop, pre, Flatten(g), post);
    FlattenAppend(Prune(kids, id + 1, drop), g);
    Reassociate(pre, Flatten(Prune(kids, id + 1, drop)), Flatten(g), post);
  }

  lemma Reassociate<T>(a: seq<T>, b: seq<T>, c: seq<T>, d: seq<T>)
    ensures a + b + (c + d) == a + (b + c) + d
  {
  }

  /** First stage: the tree with the selected children of the server deleted and the direct
      location as its last child. */
  lemma DirectStage(text: string, b: BlockRec, kids: Forest, es: seq<Edit<char>>)
    requires Located(text, b, kids) && 0 <= b.close < |text|
    requires Removals(text, ChildrenOf(Parse(text).value.blocks, b.id)) == Ok(es)
    ensures Tree(ApplyAll(text, es + [InsertionOf(text, b.close)]))
         == Some(SetKids(Tree(text).value, 0, b.id,
                         DirectBody(text, b, kids, ChildrenOf(Parse(text).value.blocks, b.id))))
  {
    hide Run, Flatten, TopBlocks, Texts, ChildrenOf, TextsOf, At, Fits, ApplyAll, Blank, Placed, Framed,
         DirectAfter, Unfinished, InsertionOf, RemovedIds, Removals, Parse, Build, SetKids, Prune, PruneEdits, NodeAt, AllPlaced;
    var f, children := Tree(text).value, ChildrenOf(Parse(text).value.blocks, b.id);
    var drop, u := RemovedIds(text, children), Unfinished(text, b.close);
    DirectEvents(text, b, kids, es);
    PruneInside(f, b.id, kids, drop, DirectAfter(u));
    var body := DirectBody(text, b, kids, children);
    TreeGivesEvents(text);
    HeadedSetKids(f, 0, b.id, End);
    HeadedPrune(kids, b.id + 1, drop);
    DirectIsHeaded(u);
    HeadedAppend(Prune(kids, b.id + 1, drop), DirectAfter(u));
    HeadedSetKids(f, 0, b.id, body);
    TreeFromEvents(ApplyAll(text, es + [InsertionOf(text, b.close)]), SetKids(f, 0, b.id, body));
  }

  /* ---------------------------------------------------------------- second stage */

  lemma UpstreamEvents()
    ensures var r := Run(INIT, UPSTREAM_BLOCK);
            r.lex == Code && Blank(r.pending) && r.out == Flatten(UPSTREAM_TREE)
  {
    hide Run, Blank, BlockText, Lines, LeafTexts, Shlex.Join, HeaderAfter, SafeLines, SafeWords;
    UpstreamIsSafe();
    IndentOfFour();
    EmptyIsBlank();
    RunBlock("", "", UPSTREAM_HEADER, UPSTREAM_LINES);
    var block := BlockText("", UPSTREAM_HEADER, UPSTREAM_LINES);
    var m := Run(INIT, block);
    RunConcat(INIT, block, "\n");
    PrefixIsPlain();
    RunPlain(m, "\n");
    NewlineIsBlank();
    BlankConcat(m.pending, "\n");
  }

  /** Second stage: the upstream block in front of everything. */
  lemma UpstreamStage(text: string)
    requires Tree(text).Some?
    ensures Tree(UPSTREAM_BLOCK + text) == Some(Append(UPSTREAM_TREE, Tree(text).value))
  {
    hide Run, Flatten, Blank, BlockText, Lines, LeafTexts, Shlex.Join, SafeLines, SafeWords, Build;
    TreeGivesEvents(text);
    UpstreamEvents();
    var m := Run(INIT, UPSTREAM_BLOCK);
    RunConcat(INIT, UPSTREAM_BLOCK, text);
    RunShift(m, text);
    EmptyIsBlank();
    Resume(m.pending, "", text);
    FlattenAppend(UPSTREAM_TREE, Tree(text).value);
    UpstreamIsSafe();
    HeadedLeaves(UPSTREAM_LINES);
    JoinIsPlain(UPSTREAM_HEADER);
    HeadedAppend(UPSTREAM_TREE, Tree(text).value);
    TreeFromEvents(UPSTREAM_BLOCK + text, Append(UPSTREAM_TREE, Tree(text).value));
  }
}
