/** parse_config accepts exactly the texts that have a tree, and returns that tree's lists. */
module NginxParserTree {
  import opened Text
  import opened NginxLexer
  import opened NginxEvents
  import opened NginxOffsets
  import opened NginxTree
  import opened NginxParser

  /** Every brace closes, counting `d` blocks already open, and every block has a directive. */
  predicate Balanced(ev: seq<Event>, d: nat)
    decreases |ev|
  {
    if ev == [] then d == 0
    else
      match ev[0]
      case Statement(_) => Balanced(ev[1..], d)
      case Open(header) => header != "" && Balanced(ev[1..], d + 1)
      case Close => d > 0 && Balanced(ev[1..], d - 1)
  }

  lemma {:induction false} BuildBalanced(ev: seq<Event>, d: nat)
    requires Balanced(ev, d)
    ensures Balanced(Build(ev).1, d) && Stops(Build(ev).1) && Headed(Build(ev).0)
    decreases |ev|
  {
    if ev != [] && !ev[0].Close? {
      if ev[0].Statement? {
        BuildBalanced(ev[1..], d);
      } else {
        BuildBalanced(ev[1..], d + 1);
        BuildBalanced(Build(ev[1..]).1[1..], d);
      }
    }
  }

  lemma {:induction false} AssembledIsBalanced(a: Assembly, marks: seq<Mark>, i: nat)
    requires i <= |marks| && StackOk(a)
    requires Assemble(a, marks, i, |marks|).Some? && Assemble(a, marks, i, |marks|).value.stack == []
    ensures Balanced(EventsOf(marks)[i..], |a.stack|)
    decreases |marks| - i
  {
    var ev := EventsOf(marks)[i..];
    if i == |marks| {
      assert ev == [];
    } else {
      assert ev[0] == EventOf(marks[i]) && ev[1..] == EventsOf(marks)[i + 1..];
      FirstPlaced(a, marks, i);
      var b := Place(a, marks[i], i).value;
      AssembleOne(a, marks, i, |marks|);
      AssembledIsBalanced(b, marks, i + 1);
    }
  }

  lemma {:induction false} FirstPlaced(a: Assembly, marks: seq<Mark>, i: nat)
    requires i < |marks| && StackOk(a) && Assemble(a, marks, i, |marks|).Some?
    ensures Place(a, marks[i], i).Some?
  {
    SomePrefix(a, marks, i, i + 1, |marks|);
    assert Assemble(a, marks, i, i) == Some(a);
  }

  lemma {:induction false} SomePrefix(a: Assembly, marks: seq<Mark>, i: nat, j: nat, k: nat)
    requires i <= j <= k <= |marks| && StackOk(a) && Assemble(a, marks, i, k).Some?
    ensures Assemble(a, marks, i, j).Some?
    decreases k
  {
    hide Place;
    if j < k {
      SomePrefix(a, marks, i, j, k - 1);
    }
  }

  function Marks(text: string): (r: seq<Mark>) { ScanTo(text, |text|).marks }

  lemma MarksAgree(text: string)
    ensures var s, m := ScanTo(text, |text|), Run(INIT, text);
            && m.out == EventsOf(Marks(text))
            && s.lex == m.lex && m.pending == Strip(Code, text[s.stmt..])
    ensures AllPlaced(text, Marks(text))
  {
    hide Placed, Run, Strip, After;
    ScanAgrees(text, |text|);
    MarksArePlaced(text, |text|);
    assert text[..|text|] == text;
    assert text[ScanTo(text, |text|).stmt..|text|] == text[ScanTo(text, |text|).stmt..];
  }

  /** A parsed text has a tree; the block and directive lists are that tree's, with every parent and offset. */
  lemma ParseGivesTree(text: string)
    requires Parse(text).Some?
    ensures Tree(text).Some?
    ensures Fits(Tree(text).value, EventsOf(Marks(text)), 0)
    ensures Parse(text).value == Config(Blocks(Tree(text).value, Marks(text), 0, -1),
                                        Directives(Tree(text).value, Marks(text), 0, -1))
  {
    var marks := Marks(text);
    MarksAgree(text);
    var ev := EventsOf(marks);
    AssembledIsBalanced(EMPTY, marks, 0);
    assert ev[0..] == ev;
    BuildBalanced(ev, 0);
    assert Tree(text).Some?;
    TreeListsAreParsed(text);
  }

  /** Conversely every text with a tree is accepted. */
  lemma TreeListsAreParsed(text: string)
    requires Tree(text).Some?
    ensures Fits(Tree(text).value, EventsOf(Marks(text)), 0)
    ensures Parse(text) == Some(Config(Blocks(Tree(text).value, Marks(text), 0, -1),
                                       Directives(Tree(text).value, Marks(text), 0, -1)))
  {
    hide Run, Strip, After, ScanTo, Blank, Placed, Build, Assemble, Blocks, Directives;
    var marks, f := Marks(text), Tree(text).value;
    MarksAgree(text);
    TreeGivesEvents(text);
    assert EventsOf(marks)[0..] == EventsOf(marks);
    assert Size(f) == |marks|;
    AssembleForest(f, marks, 0, EMPTY);
    assert Extended(f, marks, 0, EMPTY) == Assembly(Blocks(f, marks, 0, -1), Directives(f, marks, 0, -1), []);
  }

  /** parse_config raises exactly on texts without a tree. */
  lemma ParseIffTree(text: string)
    ensures Parse(text).Some? <==> Tree(text).Some?
  {
    hide *;
    if Parse(text).Some? { ParseGivesTree(text); }
    if Tree(text).Some? { TreeListsAreParsed(text); }
  }
}
