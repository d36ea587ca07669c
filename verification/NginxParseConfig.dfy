/** parse_config with its block objects: one pass over the text that updates the lexer flags, the two
    lists, the stack and `close_index` of the block on top of it. */
module NginxParseConfig {
  import opened Text
  import opened NginxLexer
  import opened NginxEvents
  import opened NginxOffsets
  import opened NginxParser
  import opened NginxParserTree

  class Block {
    const header: string
    const start: nat
    const openIndex: nat
    var closeIndex: Option<nat>
    const parent: Block?

    constructor (header: string, start: nat, openIndex: nat, parent: Block?)
      ensures this.header == header && this.start == start && this.openIndex == openIndex
      ensures this.parent == parent && closeIndex == None
    {
      this.header, this.start, this.openIndex, this.parent := header, start, openIndex, parent;
      closeIndex := None;
    }
  }

  datatype Directive = Directive(text: string, start: nat, end: nat, parent: Block?)

  /** The object `p` is the block with identity `id`, None being -1. */
  ghost predicate IsParent(p: Block?, id: int, blocks: seq<Block>, recs: seq<BlockRec>) {
    if p == null then id == -1 else exists j :: 0 <= j < |recs| && j < |blocks| && blocks[j] == p && recs[j].id == id
  }

  ghost predicate Shows(b: Block, r: BlockRec)
    reads b
  {
    && b.header == r.header && b.start == r.start && b.openIndex == r.open
    && b.closeIndex == if r.close < 0 then None else Some(r.close)
  }

  /** The objects are distinct and show the records, with parent references for parent identities. */
  ghost predicate Mirrors(blocks: seq<Block>, recs: seq<BlockRec>)
    reads blocks
  {
    && |blocks| == |recs|
    && (forall i, j :: 0 <= i < j < |blocks| ==> blocks[i] != blocks[j])
    && (forall i :: 0 <= i < |blocks| ==> Shows(blocks[i], recs[i]))
    && (forall i :: 0 <= i < |blocks| ==> IsParent(blocks[i].parent, recs[i].parent, blocks, recs))
  }

  ghost predicate DirectivesMirror(ds: seq<Directive>, recs: seq<DirectiveRec>, blocks: seq<Block>, blockRecs: seq<BlockRec>) {
    && |ds| == |recs|
    && forall i :: 0 <= i < |ds| ==>
         && ds[i].text == recs[i].text && ds[i].start == recs[i].start && ds[i].end == recs[i].end
         && IsParent(ds[i].parent, recs[i].parent, blocks, blockRecs)
  }

  ghost predicate StackMirrors(stack: seq<Block>, positions: seq<nat>, blocks: seq<Block>) {
    && |stack| == |positions|
    && forall i :: 0 <= i < |stack| ==> positions[i] < |blocks| && stack[i] == blocks[positions[i]]
  }

  /** Everything the loop has built agrees with the assembly of the statements so far. */
  ghost predicate Built(blocks: seq<Block>, directives: seq<Directive>, stack: seq<Block>, a: Assembly)
    reads blocks
  {
    && StackOk(a)
    && Mirrors(blocks, a.blocks) && DirectivesMirror(directives, a.directives, blocks, a.blocks)
    && StackMirrors(stack, a.stack, blocks)
  }

  function Assembled(text: string, i: nat): (r: Option<Assembly>)
    requires i <= |text|
    ensures r.Some? ==> StackOk(r.value)
  {
    Assemble(EMPTY, ScanTo(text, i).marks, 0, |ScanTo(text, i).marks|)
  }

  lemma ParentMirrors(blocks: seq<Block>, directives: seq<Directive>, stack: seq<Block>, a: Assembly)
    requires Built(blocks, directives, stack, a)
    ensures IsParent(if stack == [] then null else stack[|stack| - 1], Parent(a), blocks, a.blocks)
  {
    if stack != [] {
      assert blocks[a.stack[|stack| - 1]] == stack[|stack| - 1];
    }
  }

  /** More blocks do not change who the parent is. */
  lemma ParentStays(p: Block?, id: int, blocks: seq<Block>, recs: seq<BlockRec>, b: Block, r: BlockRec)
    requires |blocks| == |recs| && IsParent(p, id, blocks, recs)
    ensures IsParent(p, id, blocks + [b], recs + [r])
  {
    if p != null {
      var j :| 0 <= j < |recs| && blocks[j] == p && recs[j].id == id;
      assert (blocks + [b])[j] == p && (recs + [r])[j].id == id;
    }
  }

  lemma ParentStaysClosed(p: Block?, id: int, blocks: seq<Block>, recs: seq<BlockRec>, top: nat, at: nat)
    requires |blocks| == |recs| && top < |recs| && IsParent(p, id, blocks, recs)
    ensures IsParent(p, id, blocks, recs[top := recs[top].(close := at)])
  {
    if p != null {
      var j :| 0 <= j < |recs| && blocks[j] == p && recs[j].id == id;
      assert recs[top := recs[top].(close := at)][j].id == id;
    }
  }

  lemma PushBuilt(blocks: seq<Block>, directives: seq<Directive>, stack: seq<Block>, a: Assembly, b: Block, m: Mark, k: nat)
    requires Built(blocks, directives, stack, a) && m.OpenAt? && b !in blocks
    requires b.header == m.header && b.start == m.start && b.openIndex == m.at && b.closeIndex == None
    requires b.parent == if stack == [] then null else stack[|stack| - 1]
    ensures Built(blocks + [b], directives, stack + [b], Push(a, m, k))
  {
    var c := Push(a, m, k);
    var r := c.blocks[|a.blocks|];
    ParentMirrors(blocks, directives, stack, a);
    hide IsParent;
    forall i | 0 <= i < |blocks| + 1
      ensures IsParent((blocks + [b])[i].parent, c.blocks[i].parent, blocks + [b], c.blocks)
    {
      ParentStays((blocks + [b])[i].parent, c.blocks[i].parent, blocks, a.blocks, b, r);
    }
    forall i | 0 <= i < |directives|
      ensures IsParent(directives[i].parent, c.directives[i].parent, blocks + [b], c.blocks)
    {
      ParentStays(directives[i].parent, c.directives[i].parent, blocks, a.blocks, b, r);
    }
  }

  lemma AddBuilt(blocks: seq<Block>, directives: seq<Directive>, stack: seq<Block>, a: Assembly, d: Directive, m: Mark)
    requires Built(blocks, directives, stack, a) && m.StatementAt?
    requires d == Directive(m.text, m.start, m.at + 1, if stack == [] then null else stack[|stack| - 1])
    ensures Built(blocks, directives + [d], stack, Add(a, m))
  {
    ParentMirrors(blocks, directives, stack, a);
    hide IsParent;
  }

  lemma PopParents(blocks: seq<Block>, directives: seq<Directive>, stack: seq<Block>, a: Assembly, at: nat)
    requires StackOk(a) && stack != [] && |blocks| == |a.blocks| && StackMirrors(stack, a.stack, blocks)
    requires forall i :: 0 <= i < |blocks| ==> IsParent(blocks[i].parent, a.blocks[i].parent, blocks, a.blocks)
    requires DirectivesMirror(directives, a.directives, blocks, a.blocks)
    ensures var c := Pop(a, at);
            && (forall i :: 0 <= i < |blocks| ==> IsParent(blocks[i].parent, c.blocks[i].parent, blocks, c.blocks))
            && DirectivesMirror(directives, c.directives, blocks, c.blocks)
            && StackMirrors(stack[..|stack| - 1], c.stack, blocks)
  {
    var c, top := Pop(a, at), a.stack[|a.stack| - 1];
    hide IsParent;
    forall i | 0 <= i < |blocks|
      ensures IsParent(blocks[i].parent, c.blocks[i].parent, blocks, c.blocks)
    {
      ParentStaysClosed(blocks[i].parent, c.blocks[i].parent, blocks, a.blocks, top, at);
    }
    forall i | 0 <= i < |directives|
      ensures IsParent(directives[i].parent, c.directives[i].parent, blocks, c.blocks)
    {
      ParentStaysClosed(directives[i].parent, c.directives[i].parent, blocks, a.blocks, top, at);
    }
  }

  /** `block.close_index = index` for the block on top of the stack. */
  method CloseBlock(block: Block, index: nat, ghost blocks: seq<Block>, ghost directives: seq<Directive>,
                    ghost stack: seq<Block>, ghost a: Assembly)
    requires Built(blocks, directives, stack, a) && stack != [] && block == stack[|stack| - 1]
    modifies block
    ensures StackOk(a) && a.stack != [] && Built(blocks, directives, stack[..|stack| - 1], Pop(a, index))
  {
    hide IsParent, DirectivesMirror;
    PopParents(blocks, directives, stack, a, index);
    block.closeIndex := Some(index);
  }

  lemma AssembledNext(text: string, i: nat)
    requires i < |text|
    ensures var s, t := ScanTo(text, i), ScanTo(text, i + 1);
            && (t.marks == s.marks ==> Assembled(text, i + 1) == Assembled(text, i))
            && (forall m :: t.marks == s.marks + [m] && Assembled(text, i).Some? ==>
                  Assembled(text, i + 1) == Place(Assembled(text, i).value, m, |s.marks|))
  {
    hide ScanTo, Place;
    var s, t := ScanTo(text, i), ScanTo(text, i + 1);
    forall m | t.marks == s.marks + [m] && Assembled(text, i).Some?
      ensures Assembled(text, i + 1) == Place(Assembled(text, i).value, m, |s.marks|)
    {
      AssemblePrefix(EMPTY, s.marks, t.marks, 0, |s.marks|);
    }
  }

  /** A statement that cannot be placed makes the whole text unparsable. */
  lemma {:induction false} FailureIsFinal(text: string, i: nat, j: nat)
    requires i <= j <= |text| && Assembled(text, i).None?
    ensures Assembled(text, j).None?
    decreases j
  {
    hide ScanTo, Place;
    if i < j {
      FailureIsFinal(text, i, j - 1);
      var s, t := ScanTo(text, j - 1), ScanTo(text, j);
      ScanExtends(text, j - 1);
      AssemblePrefix(EMPTY, s.marks, t.marks, 0, |s.marks|);
      if Assembled(text, j).Some? {
        SomePrefix(EMPTY, t.marks, 0, |s.marks|, |t.marks|);
      }
    }
  }

  lemma ScanExtends(text: string, i: nat)
    requires i < |text|
    ensures ScanTo(text, i).marks <= ScanTo(text, i + 1).marks
  {
    hide Strip, Trim, CodeStart, BlockStart;
  }

  method ParseConfig(text: string) returns (r: Option<(seq<Block>, seq<Directive>)>)
    ensures r.Some? <==> Parse(text).Some?
    ensures r.Some? ==> Mirrors(r.value.0, Parse(text).value.blocks)
    ensures r.Some? ==> DirectivesMirror(r.value.1, Parse(text).value.directives, r.value.0, Parse(text).value.blocks)
    ensures r.Some? ==> forall b :: b in r.value.0 ==> fresh(b)
  {
    hide *;
    var blocks: seq<Block>, directives: seq<Directive>, stack: seq<Block> := [], [], [];
    var statementStart := 0;
    var quote: Option<char> := None;
    var escaped, comment := false, false;
    ghost var a := EMPTY;
    NothingBuilt(text);
    for index := 0 to |text|
      invariant ScanTo(text, index).lex == Flags(quote, escaped, comment)
      invariant ScanTo(text, index).stmt == statementStart
      invariant (comment ==> quote.None?) && (quote.None? ==> !escaped)
      invariant Assembled(text, index) == Some(a)
      invariant StackOk(a) && Built(blocks, directives, stack, a)
      invariant forall b :: b in blocks ==> fresh(b)
      invariant forall i :: 0 <= i < |stack| ==> fresh(stack[i])
    {
      var character := text[index];
      AssembledNext(text, index);
      ScanNext(text, index, quote, escaped, comment);
      if comment {
        if character == '\n' { comment := false; }
      } else if quote.Some? {
        if escaped { escaped := false; }
        else if character == '\\' { escaped := true; }
        else if character == quote.value { quote := None; }
      } else if character == '"' || character == '\'' {
        quote := Some(character);
      } else if character == '#' {
        comment := true;
      } else if character == ';' {
        var raw := text[statementStart..index];
        var cleaned := StripComments(raw);
        cleaned := Trim(cleaned);
        if cleaned != "" {
          var offset := FindCodeStart(raw);
          var parent := if stack == [] then null else stack[|stack| - 1];
          var m := StatementAt(cleaned, statementStart, statementStart + offset, index);
          PlacesStatement(a, m, |ScanTo(text, index).marks|);
          AddBuilt(blocks, directives, stack, a, Directive(cleaned, statementStart + offset, index + 1, parent), m);
          directives := directives + [Directive(cleaned, statementStart + offset, index + 1, parent)];
          a := Add(a, m);
        }
        statementStart := index + 1;
      } else if character == '{' {
        var raw := text[statementStart..index];
        var cleaned := StripComments(raw);
        cleaned := Trim(cleaned);
        var offset := FindCodeStart(raw);
        var start := BlockStart(text, statementStart + offset);
        ghost var m := OpenAt(cleaned, statementStart, start, index);
        PlacesBlock(a, m, |ScanTo(text, index).marks|);
        if cleaned == "" {
          FailureIsFinal(text, index + 1, |text|);
          ParseFails(text);
          return None;
        }
        var block := new Block(cleaned, start, index, if stack == [] then null else stack[|stack| - 1]);
        BuiltBlocks(blocks, directives, stack, a);
        PushBuilt(blocks, directives, stack, a, block, m, |ScanTo(text, index).marks|);
        blocks := blocks + [block];
        stack := stack + [block];
        a := Push(a, m, |ScanTo(text, index).marks|);
        statementStart := index + 1;
      } else if character == '}' {
        PlacesClose(blocks, directives, stack, a, index, |ScanTo(text, index).marks|);
        if stack == [] {
          FailureIsFinal(text, index + 1, |text|);
          ParseFails(text);
          return None;
        }
        var block := stack[|stack| - 1];
        CloseBlock(block, index, blocks, directives, stack, a);
        stack := stack[..|stack| - 1];
        a := Pop(a, index);
        statementStart := index + 1;
      }
    }
    StackEmpties(blocks, directives, stack, a);
    ParseIs(text, quote, escaped, comment, a);
    if quote.Some? || stack != [] {
      return None;
    }
    var tail := StripComments(text[statementStart..]);
    if Trim(tail) != "" {
      TrimIsBlank(tail);
      return None;
    }
    TrimIsBlank(tail);
    return Some((blocks, directives));
  }

  /** What one character does to the scan, in the terms of the loop's variables. */
  lemma ScanNext(text: string, i: nat, quote: Option<char>, escaped: bool, comment: bool)
    requires i < |text| && ScanTo(text, i).lex == Flags(quote, escaped, comment)
    requires (comment ==> quote.None?) && (quote.None? ==> !escaped)
    ensures ScanTo(text, i).stmt <= i
    ensures var s, t, c := ScanTo(text, i), ScanTo(text, i + 1), text[i];
            if comment || quote.Some? || (c != ';' && c != '{' && c != '}') then
              && t.stmt == s.stmt && t.marks == s.marks
              && t.lex == (if comment then Flags(quote, escaped, c != '\n')
                           else if quote.Some? then
                             (if escaped then Flags(quote, false, false)
                              else if c == '\\' then Flags(quote, true, false)
                              else if c == quote.value then Flags(None, false, false)
                              else Flags(quote, false, false))
                           else if c == '"' || c == '\'' then Flags(Some(c), false, false)
                           else Flags(None, false, c == '#'))
            else
              var raw := text[s.stmt..i];
              var cleaned, code := Trim(Strip(Code, raw)), s.stmt + CodeStart(raw, 0, false);
              && t.lex == Flags(None, false, false) && t.stmt == i + 1
              && t.marks == s.marks + (if c == ';' then (if cleaned == "" then [] else [StatementAt(cleaned, s.stmt, code, i)])
                                       else if c == '{' then [OpenAt(cleaned, s.stmt, BlockStart(text, code), i)]
                                       else [CloseAt(i)])
  {
    hide Strip, After, Trim, CodeStart, BlockStart, Blank;
  }

  lemma ParseIs(text: string, quote: Option<char>, escaped: bool, comment: bool, a: Assembly)
    requires ScanTo(text, |text|).lex == Flags(quote, escaped, comment) && (comment ==> quote.None?)
    requires Assembled(text, |text|) == Some(a)
    ensures Parse(text).Some? <==> a.stack == [] && quote.None? && Blank(Strip(Code, text[ScanTo(text, |text|).stmt..]))
    ensures Parse(text).Some? ==> Parse(text).value == Config(a.blocks, a.directives)
  {
    hide ScanTo, Strip, Assemble, Blank;
  }

  /** Text that cannot be assembled is not parsed. */
  lemma ParseFails(text: string)
    requires Assembled(text, |text|).None?
    ensures Parse(text).None?
  {
    hide ScanTo, Strip, Assemble, Blank;
  }

  lemma TrimIsBlank(s: string)
    ensures Trim(s) == "" <==> Blank(s)
  {
  }

  lemma NothingBuilt(text: string)
    ensures ScanTo(text, 0).lex == Flags(None, false, false)
    ensures Assembled(text, 0) == Some(EMPTY) && Built([], [], [], EMPTY)
  {
  }

  lemma BuiltBlocks(blocks: seq<Block>, directives: seq<Directive>, stack: seq<Block>, a: Assembly)
    requires Built(blocks, directives, stack, a)
    ensures forall b :: b in stack ==> b in blocks
  {
    forall b | b in stack
      ensures b in blocks
    {
      var i :| 0 <= i < |stack| && stack[i] == b;
      assert blocks[a.stack[i]] == b;
    }
  }

  lemma PlacesStatement(a: Assembly, m: Mark, k: nat)
    requires StackOk(a) && m.StatementAt?
    ensures Place(a, m, k) == Some(Add(a, m))
  {
  }

  lemma PlacesBlock(a: Assembly, m: Mark, k: nat)
    requires StackOk(a) && m.OpenAt?
    ensures Place(a, m, k) == if m.header == "" then None else Some(Push(a, m, k))
  {
  }

  lemma PlacesClose(blocks: seq<Block>, directives: seq<Directive>, stack: seq<Block>, a: Assembly, at: nat, k: nat)
    requires Built(blocks, directives, stack, a)
    ensures stack == [] <==> a.stack == []
    ensures StackOk(a) && forall b :: b in stack ==> b in blocks
    ensures Place(a, CloseAt(at), k) == if stack == [] then None else Some(Pop(a, at))
  {
    BuiltBlocks(blocks, directives, stack, a);
  }

  lemma StackEmpties(blocks: seq<Block>, directives: seq<Directive>, stack: seq<Block>, a: Assembly)
    requires Built(blocks, directives, stack, a)
    ensures stack == [] <==> a.stack == []
    ensures Mirrors(blocks, a.blocks) && DirectivesMirror(directives, a.directives, blocks, a.blocks)
  {
  }
}
