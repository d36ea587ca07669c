/** Third stage: the gate includes inserted behind opening braces are first directives in the tree. */
module NginxGates {
  import opened Text
  import opened NginxLexer
  import opened NginxEvents
  import opened NginxOffsets
  import opened NginxTree
  import opened NginxParser
  import opened NginxParserTree
  import opened NginxLists
  import opened NginxTreeEdit
  import opened NginxRules
  import opened NginxSplice
  import opened NginxSnippets
  import opened NginxRewrite
  import opened NginxCommute
  import opened NginxStages
  import Shlex

  /** The directive list gives every block inside `f` the directives of its body. */
  ghost predicate TextsAgree(f: Forest, base: nat, directives: seq<DirectiveRec>) {
    forall j: int {:trigger TextsOf(directives, j)} ::
      NodeAt(f, base, j).Some? ==> TextsOf(directives, j) == Texts(NodeAt(f, base, j).value.1)
  }

  lemma {:induction false} NodeInside(f: Forest, base: nat, id: int, j: int)
    requires id >= 0 && NodeAt(f, base, id).Some?
    requires NodeAt(NodeAt(f, base, id).value.1, id + 1, j).Some?
    ensures NodeAt(f, base, j) == NodeAt(NodeAt(f, base, id).value.1, id + 1, j)
    decreases f
  {
    var kids := NodeAt(f, base, id).value.1;
    NodeBounds(f, base, id);
    NodeBounds(kids, id + 1, j);
    match f
    case Directive(_, rest) => NodeInside(rest, base + 1, id, j);
    case Block(_, body, rest) =>
      if id != base {
        if id < base + 1 + Size(body) {
          NodeBounds(body, base + 1, id);
          NodeInside(body, base + 1, id, j);
        } else {
          NodeBounds(rest, base + 2 + Size(body), id);
          NodeInside(rest, base + 2 + Size(body), id, j);
        }
      }
  }

  lemma BodyAgrees(text: string, b: BlockRec, kids: Forest)
    requires Located(text, b, kids)
    ensures TextsAgree(kids, b.id + 1, Parse(text).value.directives)
  {
    hide Run, Flatten, TopBlocks, Texts, ChildrenOf, TextsOf, At, Fits, Placed, Framed, Parse, Build, NodeAt, AllPlaced,
         Directives, Tree, Marks, EventsOf, Blocks, Size;
    var f, ds := Tree(text).value, Parse(text).value.directives;
    ParseGivesTree(text);
    forall j: int | NodeAt(kids, b.id + 1, j).Some?
      ensures TextsOf(ds, j) == Texts(NodeAt(kids, b.id + 1, j).value.1)
    {
      NodeInside(f, 0, b.id, j);
      NodeBounds(f, 0, j);
      TextsInTree(f, Marks(text), 0, -1, j);
    }
  }

  lemma NodeInRest(header: string, kids: Forest, rest: Forest, base: nat, j: int)
    ensures NodeAt(rest, base + 2 + Size(kids), j).Some? ==>
              NodeAt(Block(header, kids, rest), base, j) == NodeAt(rest, base + 2 + Size(kids), j)
    ensures NodeAt(Block(header, kids, rest), base, base) == Some((header, kids))
  {
    if NodeAt(rest, base + 2 + Size(kids), j).Some? {
      NodeBounds(rest, base + 2 + Size(kids), j);
    }
  }

  lemma AgreeRest(header: string, kids: Forest, rest: Forest, base: nat, ds: seq<DirectiveRec>)
    requires TextsAgree(Block(header, kids, rest), base, ds)
    ensures TextsAgree(rest, base + 2 + Size(kids), ds)
    ensures TextsOf(ds, base) == Texts(kids)
  {
    hide Texts, TextsOf, NodeAt;
    NodeInRest(header, kids, rest, base, base);
    forall j: int | NodeAt(rest, base + 2 + Size(kids), j).Some?
      ensures TextsOf(ds, j) == Texts(NodeAt(rest, base + 2 + Size(kids), j).value.1)
    {
      NodeInRest(header, kids, rest, base, j);
    }
  }

  lemma AgreeTail(text: string, rest: Forest, base: nat, ds: seq<DirectiveRec>)
    requires TextsAgree(Directive(text, rest), base, ds)
    ensures TextsAgree(rest, base + 1, ds)
  {
    hide Texts, TextsOf;
    forall j: int | NodeAt(rest, base + 1, j).Some?
      ensures TextsOf(ds, j) == Texts(NodeAt(rest, base + 1, j).value.1)
    {
      assert NodeAt(Directive(text, rest), base, j) == NodeAt(rest, base + 1, j);
    }
  }

  /** What is read of the inserted text: one directive. */
  lemma GateRuns(indentation: string, newline: string)
    requires Indent(indentation) && (newline == "" || newline == "\n")
    ensures var r := Run(Machine(Code, "", []), "\n" + indentation + "    " + GATE_TEXT + ";" + newline);
            r.lex == Code && Blank(r.pending) && r.out == [Statement(GATE_TEXT)]
  {
    hide Run, Blank, Trim, Plain, Shlex.Join, SafeWord, Step, IsSpace, Indent;
    GateIsSafe();
    JoinIsPlain(GATE_WORDS);
    var w := "\n" + indentation + "    ";
    IndentIsBlank(indentation);
    IndentOfFour();
    IndentIsBlank("    ");
    PrefixIsPlain();
    NewlineIsBlank();
    EmptyIsBlank();
    BlankConcat("\n", indentation);
    BlankConcat("\n" + indentation, "    ");
    PlainConcat("\n", indentation);
    PlainConcat("\n" + indentation, "    ");
    PlainConcat(w, GATE_TEXT);
    RunPlainThen("", [], w + GATE_TEXT, ';');
    TrimAround(w, GATE_TEXT, "");
    NotBlank(w, GATE_TEXT);
    assert "" + (w + GATE_TEXT) == w + GATE_TEXT + "";
    StepStatement("" + (w + GATE_TEXT), []);
    assert [] + [Statement(GATE_TEXT)] == [Statement(GATE_TEXT)];
    var m := Machine(Code, "", [Statement(GATE_TEXT)]);
    RunConcat(Machine(Code, "", []), w + GATE_TEXT + [';'], newline);
    RunPlain(m, newline);
    assert w + GATE_TEXT + ";" + newline == (w + GATE_TEXT + [';']) + newline;
    assert "" + newline == newline;
  }

  lemma GateMatches(text: string, marks: seq<Mark>, header: string, kids: Forest, base: nat, parent: int)
    requires AllPlaced(text, marks) && base < |marks| && marks[base].OpenAt?
    ensures var e := GateOf(text, RecAt(header, kids, marks, base, parent));
            && Matches(text, e, Edit(base + 1, base + 1, [Statement(GATE_TEXT)]))
            && e.start == e.end == marks[base].at + 1 <= |text|
            && Blank(At(text, e.end).pending)
  {
    hide Run, Blank, Indentation, LineStart, StartPlaced, IsSpace, Trim;
    var r := RecAt(header, kids, marks, base, parent);
    assert Placed(text, marks, base);
    EmptyIsBlank();
    var e := GateOf(text, r);
    assert e.start == e.end == marks[base].at + 1;
    var line := if r.open <= |text| then LineStart(text, r.open) else 0;
    var newline := if Slice(text, r.open + 1, r.open + 2) == "\n" then "" else "\n";
    GateRuns(Indentation(Slice(text, line, r.open)), newline);
  }

  lemma StartAfterPrevious(text: string, marks: seq<Mark>, k: nat)
    requires AllPlaced(text, marks) && 0 < k < |marks| && marks[k].OpenAt?
    ensures marks[k - 1].at < marks[k].start <= marks[k].at
  {
    hide At, Clean, IsCut, EventsOf;
    assert Placed(text, marks, k);
  }

  lemma OpenIsLater(text: string, marks: seq<Mark>, base: nat, k: nat)
    requires AllPlaced(text, marks) && base < k < |marks| && marks[k].OpenAt?
    ensures marks[base].at < marks[k].start <= marks[k].at
  {
    hide Placed;
    StartAfterPrevious(text, marks, k);
    if base < k - 1 {
      MarksAscend(text, marks, base, k - 1);
    }
  }

  /** A later edit of this stage lies behind the brace of an earlier block. */
  lemma BraceBeforeLater(text: string, marks: seq<Mark>, base: nat, es: seq<Edit<char>>, xs: seq<Edit<Event>>, lo: nat, e: nat)
    requires AllPlaced(text, marks) && base < lo <= e < |marks| && marks[e].at <= |text|
    requires EditsFit(text, marks, es, xs, lo, marks[e].at)
    ensures marks[base].at + 1 <= StartOr(es, 0, marks[e].at)
  {
    hide At, Matches, Blank, Placed, AllPlaced, Ascending;
    if es != [] {
      var k :| lo <= k < |marks| && marks[k].OpenAt? && (es[0].start == marks[k].start || es[0].start == marks[k].at + 1);
      OpenIsLater(text, marks, base, k);
    } else {
      MarksAscend(text, marks, base, e);
    }
  }

  lemma GatesUnfold(text: string, cfg: Config, r: BlockRec, blocks: seq<BlockRec>)
    requires Gates(text, cfg, [r] + blocks).Ok?
    ensures Gates(text, cfg, blocks).Ok? && NeedsGate(r.header, TextsOf(cfg.directives, r.id)).Ok?
    ensures Gates(text, cfg, [r] + blocks).value
         == (if NeedsGate(r.header, TextsOf(cfg.directives, r.id)).value
             then [GateOf(text, r)] + Gates(text, cfg, blocks).value
             else Gates(text, cfg, blocks).value)
  {
    hide NeedsGate, TextsOf, GateOf;
    assert ([r] + blocks)[1..] == blocks;
    assert [] + Gates(text, cfg, blocks).value == Gates(text, cfg, blocks).value;
  }

  lemma {:induction false} GatesFit(text: string, marks: seq<Mark>, cfg: Config, f: Forest, base: nat, parent: int,
                                    e: nat, es: seq<Edit<char>>)
    requires AllPlaced(text, marks) && Fits(f, EventsOf(marks), base) && base + Size(f) <= e < |marks|
    requires marks[e].at <= |text|
    requires Gates(text, cfg, TopBlocks(f, marks, base, parent)) == Ok(es)
    requires TextsAgree(f, base, cfg.directives)
    ensures EditsFit(text, marks, es, GateEdits(f, base, GATE_TEXT), base, marks[e].at)
    decreases f
  {
    hide Fits, RecAt, GateOf, Matches, At, Blank, EditsFit, NeedsGate, Placed, FirstAfter, TextsAgree, Texts, TextsOf, AllPlaced, Flatten;
    match f
    case End =>
      NoEditsFit(text, marks, base, marks[e].at);
    case Directive(t, rest) =>
      hide Gates;
      FitsDirective(t, rest, EventsOf(marks), base);
      AgreeTail(t, rest, base, cfg.directives);
      GatesFit(text, marks, cfg, rest, base + 1, parent, e, es);
      LowerFirst(text, marks, es, GateEdits(f, base, GATE_TEXT), base, base + 1, marks[e].at);
    case Block(header, kids, rest) =>
      hide Gates;
      var n := base + 2 + Size(kids);
      FitsBlock(header, kids, rest, EventsOf(marks), base);
      AgreeRest(header, kids, rest, base, cfg.directives);
      var es' := GatesOfRest(text, marks, cfg, header, kids, rest, base, parent, es);
      GatesFit(text, marks, cfg, rest, n, parent, e, es');
      GateBlock(header, kids, rest, base, GATE_TEXT);
      hide GateEdits, TopBlocks, Size;
      if NeedsGate(header, Texts(kids)) == Ok(true) {
        GatesStep(text, marks, header, kids, base, parent, e, es', GateEdits(rest, n, GATE_TEXT));
      } else {
        assert es == es' && GateEdits(f, base, GATE_TEXT) == GateEdits(rest, n, GATE_TEXT);
        LowerFirst(text, marks, es', GateEdits(rest, n, GATE_TEXT), base, n, marks[e].at);
      }
  }

  lemma GatesOfRest(text: string, marks: seq<Mark>, cfg: Config, header: string, kids: Forest, rest: Forest, base: nat, parent: int,
                    es: seq<Edit<char>>) returns (tail: seq<Edit<char>>)
    requires TextsAgree(Block(header, kids, rest), base, cfg.directives)
    requires Gates(text, cfg, TopBlocks(Block(header, kids, rest), marks, base, parent)) == Ok(es)
    ensures Gates(text, cfg, TopBlocks(rest, marks, base + 2 + Size(kids), parent)) == Ok(tail)
    ensures NeedsGate(header, Texts(kids)).Ok?
    ensures es == (if NeedsGate(header, Texts(kids)) == Ok(true) then [GateOf(text, RecAt(header, kids, marks, base, parent))] else [])
                  + tail
  {
    hide RecAt, GateOf, NeedsGate, TextsAgree, Texts, TextsOf, Gates;
    var blocks := TopBlocks(rest, marks, base + 2 + Size(kids), parent);
    AgreeRest(header, kids, rest, base, cfg.directives);
    RecParent(header, kids, marks, base, parent);
    GatesUnfold(text, cfg, RecAt(header, kids, marks, base, parent), blocks);
    tail := Gates(text, cfg, blocks).value;
  }

  lemma GatesStep(text: string, marks: seq<Mark>, header: string, kids: Forest, base: nat, parent: int,
                  e: nat, es: seq<Edit<char>>, xs: seq<Edit<Event>>)
    requires AllPlaced(text, marks) && base + 1 + Size(kids) < e < |marks| && marks[e].at <= |text|
    requires EventOf(marks[base]) == Open(header)
    requires EditsFit(text, marks, es, xs, base + 2 + Size(kids), marks[e].at)
    ensures EditsFit(text, marks, [GateOf(text, RecAt(header, kids, marks, base, parent))] + es,
                     [Edit(base + 1, base + 1, [Statement(GATE_TEXT)])] + xs, base, marks[e].at)
  {
    hide RecAt, GateOf, Matches, At, Blank, EditsFit, Placed, FirstAfter;
    GateMatches(text, marks, header, kids, base, parent);
    BraceBeforeLater(text, marks, base, es, xs, base + 2 + Size(kids), e);
    StartIsFirst(marks, base);
    PrependEdit(text, marks, GateOf(text, RecAt(header, kids, marks, base, parent)),
                Edit(base + 1, base + 1, [Statement(GATE_TEXT)]), es, xs, base, base + 2 + Size(kids), marks[e].at);
  }

  lemma FitIsMatch(text: string, marks: seq<Mark>, es: seq<Edit<char>>, xs: seq<Edit<Event>>, lo: nat, hi: nat)
    requires EditsFit(text, marks, es, xs, lo, hi)
    ensures AllMatch(text, es, xs)
  {
    hide Matches, At, Blank, FirstAfter;
    forall i | 0 <= i < |es|
      ensures es[i].start <= es[i].end <= StartOr(es, i + 1, |text|)
    {
      assert es[i].end <= StartOr(es, i + 1, hi);
    }
  }

  lemma GateInside(f: Forest, id: nat, kids: Forest)
    requires NodeAt(f, 0, id).Some? && NodeAt(f, 0, id).value.1 == kids
    ensures ApplyAll(Flatten(f), GateEdits(kids, id + 1, GATE_TEXT)) == Flatten(SetKids(f, 0, id, Gate(kids, GATE_TEXT)))
  {
    hide Flatten, ApplyAll, Splice, NodeAt, SetKids, Gate, GateEdits;
    SetKidsFlattens(f, 0, id, Gate(kids, GATE_TEXT));
    var ev := Flatten(f);
    var pre, post := ev[..id + 1], ev[id + 1 + Size(kids)..];
    assert ev == pre + Flatten(kids) + post;
    GateFlattens(kids, GATE_TEXT, pre, post);
  }

  /** Third stage: the gate include is the first directive of exactly the server's ungated proxying locations. */
  lemma GateStage(text: string, b: BlockRec, kids: Forest, es: seq<Edit<char>>)
    requires Located(text, b, kids) && 0 <= b.close < |text|
    requires Gates(text, Parse(text).value, ChildrenOf(Parse(text).value.blocks, b.id)) == Ok(es)
    ensures Tree(ApplyAll(text, es)) == Some(SetKids(Tree(text).value, 0, b.id, Gate(kids, GATE_TEXT)))
  {
    hide Run, Flatten, TopBlocks, Texts, ChildrenOf, TextsOf, At, Fits, ApplyAll, Blank, Placed,
         Parse, Build, SetKids, NodeAt, AllPlaced, Gates, GateEdits, Gate, EditsFit, AllMatch, TextsAgree, Tree;
    var f, marks, e := Tree(text).value, Marks(text), b.id + 1 + Size(kids);
    BodyAgrees(text, b, kids);
    LocatedBounds(text, b, kids);
    GatesFit(text, marks, Parse(text).value, kids, b.id + 1, b.id, e, es);
    FitIsMatch(text, marks, es, GateEdits(kids, b.id + 1, GATE_TEXT), b.id + 1, b.close);
    EditsCommute(text, es, GateEdits(kids, b.id + 1, GATE_TEXT));
    GateInside(f, b.id, kids);
    TreeGivesEvents(text);
    HeadedSetKids(f, 0, b.id, End);
    HeadedGate(kids, GATE_TEXT);
    HeadedSetKids(f, 0, b.id, Gate(kids, GATE_TEXT));
    TreeFromEvents(ApplyAll(text, es), SetKids(f, 0, b.id, Gate(kids, GATE_TEXT)));
  }
}
