/** parse_config: the flat lists of blocks and directives with their offsets and parents. */
module NginxParser {
  import opened Text
  import opened NginxLexer
  import opened NginxEvents
  import opened NginxOffsets
  import opened NginxTree

  /** A block is identified by the position of its opening brace among the events of the text;
      a parent of -1 is the source's None, and so is a `close` of -1. */
  datatype BlockRec = BlockRec(id: nat, header: string, start: nat, open: nat, close: int, parent: int)

  datatype DirectiveRec = DirectiveRec(text: string, start: nat, end: nat, parent: int)

  datatype Config = Config(blocks: seq<BlockRec>, directives: seq<DirectiveRec>)

  /** The lists under construction and the stack of open blocks, as positions in `blocks`. */
  datatype Assembly = Assembly(blocks: seq<BlockRec>, directives: seq<DirectiveRec>, stack: seq<nat>)

  const EMPTY := Assembly([], [], [])

  predicate StackOk(a: Assembly) {
    forall i :: 0 <= i < |a.stack| ==> a.stack[i] < |a.blocks|
  }

  function Parent(a: Assembly): int
    requires StackOk(a)
  {
    if a.stack == [] then -1 else a.blocks[a.stack[|a.stack| - 1]].id
  }

  function Push(a: Assembly, m: Mark, k: nat): (r: Assembly)
    requires StackOk(a) && m.OpenAt?
    ensures StackOk(r) && Parent(r) == k
  {
    a.(blocks := a.blocks + [BlockRec(k, m.header, m.start, m.at, -1, Parent(a))],
       stack := a.stack + [|a.blocks|])
  }

  function Pop(a: Assembly, at: nat): (r: Assembly)
    requires StackOk(a) && a.stack != []
    ensures StackOk(r)
  {
    var top := a.stack[|a.stack| - 1];
    a.(blocks := a.blocks[top := a.blocks[top].(close := at)], stack := a.stack[..|a.stack| - 1])
  }

  function Add(a: Assembly, m: Mark): (r: Assembly)
    requires StackOk(a) && m.StatementAt?
    ensures StackOk(r) && Parent(r) == Parent(a)
  {
    a.(directives := a.directives + [DirectiveRec(m.text, m.start, m.at + 1, Parent(a))])
  }

  /** One statement: None where the source raises. */
  function Place(a: Assembly, m: Mark, k: nat): (r: Option<Assembly>)
    requires StackOk(a)
    ensures r.Some? ==> StackOk(r.value)
  {
    match m
    case StatementAt(_, _, _, _) => Some(Add(a, m))
    case OpenAt(header, _, _, _) => if header == "" then None else Some(Push(a, m, k))
    case CloseAt(at) => if a.stack == [] then None else Some(Pop(a, at))
  }

  /** The statements `i` up to `j`, one after the other. */
  function Assemble(a: Assembly, marks: seq<Mark>, i: nat, j: nat): (r: Option<Assembly>)
    requires i <= j <= |marks| && StackOk(a)
    ensures r.Some? ==> StackOk(r.value)
    decreases j
  {
    if i == j then Some(a)
    else
      var b := Assemble(a, marks, i, j - 1);
      if b.None? then None else Place(b.value, marks[j - 1], j - 1)
  }

  lemma {:induction false} AssembleConcat(a: Assembly, marks: seq<Mark>, i: nat, j: nat, k: nat)
    requires i <= j <= k <= |marks| && StackOk(a)
    requires Assemble(a, marks, i, j).Some?
    ensures Assemble(a, marks, i, k) == Assemble(Assemble(a, marks, i, j).value, marks, j, k)
    decreases k
  {
    hide Place;
    if j < k {
      AssembleConcat(a, marks, i, j, k - 1);
    }
  }

  lemma {:induction false} AssemblePrefix(a: Assembly, short: seq<Mark>, long: seq<Mark>, i: nat, j: nat)
    requires i <= j <= |short| && short <= long && StackOk(a)
    ensures Assemble(a, short, i, j) == Assemble(a, long, i, j)
    decreases j
  {
    hide Place;
    if i < j {
      AssemblePrefix(a, short, long, i, j - 1);
    }
  }

  function Parse(text: string): Option<Config> {
    var s := ScanTo(text, |text|);
    var a := Assemble(EMPTY, s.marks, 0, |s.marks|);
    if a.None? || a.value.stack != [] || s.lex.Quote? || !Blank(Strip(Code, text[s.stmt..])) then None
    else Some(Config(a.value.blocks, a.value.directives))
  }

  /* ---------------------------------------------------------------- the lists of a tree */

  function MarkAt(marks: seq<Mark>, i: nat): Mark {
    if i < |marks| then marks[i] else CloseAt(0)
  }

  function StartOf(m: Mark): nat {
    match m
    case OpenAt(_, _, start, _) => start
    case StatementAt(_, _, start, _) => start
    case CloseAt(at) => at
  }

  /** The record of a block whose opening brace is event `base`. */
  function RecAt(header: string, kids: Forest, marks: seq<Mark>, base: nat, parent: int): BlockRec {
    BlockRec(base, header, StartOf(MarkAt(marks, base)), MarkAt(marks, base).at,
             MarkAt(marks, base + 1 + Size(kids)).at, parent)
  }

  /** The blocks of a tree whose first event is number `base`, in the order their braces open. */
  function Blocks(f: Forest, marks: seq<Mark>, base: nat, parent: int): seq<BlockRec> {
    match f
    case End => []
    case Directive(_, rest) => Blocks(rest, marks, base + 1, parent)
    case Block(header, kids, rest) =>
      ([RecAt(header, kids, marks, base, parent)] + Blocks(kids, marks, base + 1, base))
      + Blocks(rest, marks, base + 2 + Size(kids), parent)
  }

  function Directives(f: Forest, marks: seq<Mark>, base: nat, parent: int): seq<DirectiveRec> {
    match f
    case End => []
    case Directive(text, rest) =>
      [DirectiveRec(text, StartOf(MarkAt(marks, base)), MarkAt(marks, base).at + 1, parent)]
      + Directives(rest, marks, base + 1, parent)
    case Block(_, kids, rest) =>
      Directives(kids, marks, base + 1, base) + Directives(rest, marks, base + 2 + Size(kids), parent)
  }

  /** The events from `base` on begin with those of `f`. */
  predicate Fits(f: Forest, ev: seq<Event>, base: nat) {
    base <= |ev| && Flatten(f) <= ev[base..]
  }

  lemma PrefixSplit<T>(a: seq<T>, b: seq<T>, s: seq<T>, i: nat)
    requires i <= |s| && a + b <= s[i..]
    ensures a <= s[i..] && i + |a| <= |s| && b <= s[i + |a|..]
    ensures |a| == 1 ==> s[i] == a[0]
  {
    assert s[i + |a|..] == s[i..][|a|..];
    assert (a + b)[|a|..] == b;
    assert a <= a + b;
  }

  lemma FitsDirective(text: string, rest: Forest, ev: seq<Event>, base: nat)
    requires Fits(Directive(text, rest), ev, base)
    ensures base < |ev| && ev[base] == Statement(text) && Fits(rest, ev, base + 1)
  {
    PrefixSplit([Statement(text)], Flatten(rest), ev, base);
  }

  lemma PrefixBlock<T>(x: T, ks: seq<T>, y: T, rs: seq<T>, s: seq<T>, i: nat)
    requires i <= |s| && [x] + (ks + ([y] + rs)) <= s[i..]
    ensures i + 2 + |ks| <= |s| && s[i] == x && s[i + 1 + |ks|] == y
    ensures ks <= s[i + 1..] && rs <= s[i + 2 + |ks|..]
  {
    PrefixSplit([x], ks + ([y] + rs), s, i);
    PrefixSplit(ks, [y] + rs, s, i + 1);
    PrefixSplit([y], rs, s, i + 1 + |ks|);
  }

  lemma FitsBlock(header: string, kids: Forest, rest: Forest, ev: seq<Event>, base: nat)
    requires Fits(Block(header, kids, rest), ev, base)
    ensures base + 1 + Size(kids) < |ev|
    ensures ev[base] == Open(header) && ev[base + 1 + Size(kids)] == Close
    ensures Fits(kids, ev, base + 1) && Fits(rest, ev, base + 2 + Size(kids))
  {
    PrefixBlock(Open(header), Flatten(kids), Close, Flatten(rest), ev, base);
  }

  function Extended(f: Forest, marks: seq<Mark>, base: nat, a: Assembly): (r: Assembly)
    requires StackOk(a)
    ensures StackOk(r) && Parent(r) == Parent(a)
  {
    Assembly(a.blocks + Blocks(f, marks, base, Parent(a)),
             a.directives + Directives(f, marks, base, Parent(a)), a.stack)
  }

  lemma ExtendDirective(f: Forest, marks: seq<Mark>, base: nat, a: Assembly)
    requires f.Directive? && StackOk(a) && MarkAt(marks, base).StatementAt? && MarkAt(marks, base).text == f.text
    ensures Extended(f.rest, marks, base + 1, Add(a, MarkAt(marks, base))) == Extended(f, marks, base, a)
  {
    var b := Add(a, MarkAt(marks, base));
    var ds := Directives(f.rest, marks, base + 1, Parent(a));
    assert forall d :: (a.directives + [d]) + ds == a.directives + ([d] + ds);
  }

  /** Opening, filling and closing a block adds its record before those of its body. */
  lemma ExtendBody(f: Forest, marks: seq<Mark>, base: nat, a: Assembly)
    requires f.Block? && StackOk(a) && MarkAt(marks, base).OpenAt? && MarkAt(marks, base).header == f.header
    ensures var c := Extended(f.kids, marks, base + 1, Push(a, MarkAt(marks, base), base));
            && c.stack == a.stack + [|a.blocks|]
            && Pop(c, MarkAt(marks, base + 1 + Size(f.kids)).at)
            == Assembly(a.blocks + ([RecAt(f.header, f.kids, marks, base, Parent(a))] + Blocks(f.kids, marks, base + 1, base)),
                        a.directives + Directives(f.kids, marks, base + 1, base), a.stack)
  {
    hide Blocks, Directives, MarkAt, StartOf;
    var r := RecAt(f.header, f.kids, marks, base, Parent(a));
    var ks := Blocks(f.kids, marks, base + 1, base);
    var b := Push(a, MarkAt(marks, base), base);
    assert StartOf(MarkAt(marks, base)) == MarkAt(marks, base).start by { StartOfOpen(MarkAt(marks, base)); }
    assert b.blocks == a.blocks + [r.(close := -1)];
    assert b.blocks + ks == a.blocks + ([r.(close := -1)] + ks);
  }

  lemma StartOfOpen(m: Mark)
    requires m.OpenAt?
    ensures StartOf(m) == m.start
  {
  }

  lemma ExtendRest(f: Forest, marks: seq<Mark>, base: nat, a: Assembly, d: Assembly)
    requires f.Block? && StackOk(a) && StackOk(d)
    requires d == Assembly(a.blocks + ([RecAt(f.header, f.kids, marks, base, Parent(a))] + Blocks(f.kids, marks, base + 1, base)),
                           a.directives + Directives(f.kids, marks, base + 1, base), a.stack)
    ensures Extended(f.rest, marks, base + 2 + Size(f.kids), d) == Extended(f, marks, base, a)
  {
    hide RecAt, MarkAt;
    assert Parent(d) == Parent(a);
    Assoc(a.blocks, [RecAt(f.header, f.kids, marks, base, Parent(a))] + Blocks(f.kids, marks, base + 1, base),
          Blocks(f.rest, marks, base + 2 + Size(f.kids), Parent(a)));
    Assoc(a.directives, Directives(f.kids, marks, base + 1, base),
          Directives(f.rest, marks, base + 2 + Size(f.kids), Parent(a)));
  }

  lemma Assoc<T>(x: seq<T>, y: seq<T>, z: seq<T>)
    ensures (x + y) + z == x + (y + z)
  {
  }

  lemma AssembleOne(a: Assembly, marks: seq<Mark>, k: nat, j: nat)
    requires k < j <= |marks| && StackOk(a) && Place(a, marks[k], k).Some?
    ensures Assemble(a, marks, k, j) == Assemble(Place(a, marks[k], k).value, marks, k + 1, j)
  {
    hide Place;
    assert Assemble(a, marks, k, k) == Some(a);
    assert Assemble(a, marks, k, k + 1) == Place(a, marks[k], k);
    AssembleConcat(a, marks, k, k + 1, j);
  }

  /** Assembling the marks of a tree appends exactly its blocks and directives, whatever stack is open. */
  lemma {:induction false} AssembleForest(f: Forest, marks: seq<Mark>, base: nat, a: Assembly)
    requires Fits(f, EventsOf(marks), base) && base + Size(f) <= |marks| && Headed(f) && StackOk(a)
    ensures Assemble(a, marks, base, base + Size(f)) == Some(Extended(f, marks, base, a))
    decreases f, 1
  {
    hide Fits, Extended, Assemble, Push, Pop, Add, EventsOf;
    match f
    case End =>
      AssembleNothing(marks, base, a);
    case Directive(text, rest) =>
      FitsDirective(text, rest, EventsOf(marks), base);
      AssembleOne(a, marks, base, base + Size(f));
      AssembleForest(rest, marks, base + 1, Add(a, marks[base]));
      ExtendDirective(f, marks, base, a);
    case Block(header, kids, rest) =>
      FitsBlock(header, kids, rest, EventsOf(marks), base);
      AssembleBlock(f, marks, base, a);
  }

  lemma {:induction false} AssembleBlock(f: Forest, marks: seq<Mark>, base: nat, a: Assembly)
    requires f.Block? && base + Size(f) <= |marks| && Headed(f) && StackOk(a)
    requires EventOf(marks[base]) == Open(f.header) && EventOf(marks[base + 1 + Size(f.kids)]) == Close
    requires Fits(f.kids, EventsOf(marks), base + 1) && Fits(f.rest, EventsOf(marks), base + 2 + Size(f.kids))
    ensures Assemble(a, marks, base, base + Size(f)) == Some(Extended(f, marks, base, a))
    decreases f, 0
  {
    hide Fits, Extended, Assemble, Push, Pop, Add, EventsOf, EventOf, Place, Flatten;
    var n, end := Size(f.kids), base + Size(f);
    PlaceOpen(a, marks[base], base, f.header);
    AssembleOne(a, marks, base, end);
    var b := Push(a, marks[base], base);
    AssembleForest(f.kids, marks, base + 1, b);
    AssembleConcat(b, marks, base + 1, base + 1 + n, end);
    var c := Extended(f.kids, marks, base + 1, b);
    ExtendBody(f, marks, base, a);
    PlaceClose(c, marks[base + 1 + n], base + 1 + n);
    AssembleOne(c, marks, base + 1 + n, end);
    var d := Pop(c, marks[base + 1 + n].at);
    AssembleForest(f.rest, marks, base + 2 + n, d);
    ExtendRest(f, marks, base, a, d);
  }

  lemma PlaceOpen(a: Assembly, m: Mark, k: nat, header: string)
    requires StackOk(a) && EventOf(m) == Open(header) && header != ""
    ensures m.OpenAt? && m.header == header && Place(a, m, k) == Some(Push(a, m, k))
  {
  }

  lemma PlaceClose(a: Assembly, m: Mark, k: nat)
    requires StackOk(a) && EventOf(m) == Close && a.stack != []
    ensures Place(a, m, k) == Some(Pop(a, m.at))
  {
  }

  lemma AssembleNothing(marks: seq<Mark>, base: nat, a: Assembly)
    requires base <= |marks| && StackOk(a)
    ensures Assemble(a, marks, base, base) == Some(Extended(End, marks, base, a))
  {
    assert a.blocks + [] == a.blocks && a.directives + [] == a.directives;
  }
}
