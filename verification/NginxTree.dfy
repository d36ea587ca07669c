/** The block tree of a configuration and its event stream. */
module NginxTree {
  import opened Text
  import opened NginxLexer
  import opened NginxEvents

  /** Blocks and directives in textual order, without offsets. */
  datatype Forest =
    | End
    | Directive(text: string, rest: Forest)
    | Block(header: string, kids: Forest, rest: Forest)

  function Flatten(f: Forest): seq<Event> {
    match f
    case End => []
    case Directive(text, rest) => [Statement(text)] + Flatten(rest)
    case Block(header, kids, rest) => [Open(header)] + (Flatten(kids) + ([Close] + Flatten(rest)))
  }

  function Size(f: Forest): (n: nat)
    ensures n == |Flatten(f)|
  {
    match f
    case End => 0
    case Directive(_, rest) => 1 + Size(rest)
    case Block(_, kids, rest) => 2 + Size(kids) + Size(rest)
  }

  function Append(f: Forest, g: Forest): Forest {
    match f
    case End => g
    case Directive(text, rest) => Directive(text, Append(rest, g))
    case Block(header, kids, rest) => Block(header, kids, Append(rest, g))
  }

  lemma {:induction false} FlattenAppend(f: Forest, g: Forest)
    ensures Flatten(Append(f, g)) == Flatten(f) + Flatten(g)
  {
    match f
    case End =>
    case Directive(text, rest) =>
      FlattenAppend(rest, g);
      Behind(Statement(text), Flatten(rest), Flatten(g));
    case Block(header, kids, rest) =>
      FlattenAppend(rest, g);
      Rotate(Open(header), Flatten(kids), Close, Flatten(rest), Flatten(g));
  }

  lemma Behind<T>(a: T, x: seq<T>, y: seq<T>)
    ensures ([a] + x) + y == [a] + (x + y)
  {
  }

  lemma Rotate<T>(a: T, x: seq<T>, b: T, y: seq<T>, z: seq<T>)
    ensures ([a] + (x + ([b] + y))) + z == [a] + (x + ([b] + (y + z)))
  {
  }

  /** parse_config refuses a block without a directive. */
  predicate Headed(f: Forest) {
    match f
    case End => true
    case Directive(_, rest) => Headed(rest)
    case Block(header, kids, rest) => header != "" && Headed(kids) && Headed(rest)
  }

  /** Reads the longest forest at the front of `ev`; an unmatched brace is left in the remainder. */
  function Build(ev: seq<Event>): (r: (Forest, seq<Event>))
    ensures |r.1| <= |ev|
    decreases |ev|
  {
    if ev == [] then (End, [])
    else
      match ev[0]
      case Close => (End, ev)
      case Statement(text) =>
        var (f, rest) := Build(ev[1..]);
        (Directive(text, f), rest)
      case Open(header) =>
        var (kids, r1) := Build(ev[1..]);
        if r1 == [] || r1[0] != Close then (End, ev)
        else
          var (f, rest) := Build(r1[1..]);
          (Block(header, kids, f), rest)
  }

  predicate Stops(ev: seq<Event>) { ev == [] || ev[0] == Close }

  lemma {:induction false} BuildFlatten(f: Forest, rest: seq<Event>)
    requires Stops(rest)
    ensures Build(Flatten(f) + rest) == (f, rest)
  {
    match f
    case End =>
      assert Flatten(f) + rest == rest;
    case Directive(text, g) =>
      BuildFlatten(g, rest);
      assert (Flatten(f) + rest)[1..] == Flatten(g) + rest;
    case Block(header, kids, g) =>
      BuildFlatten(g, rest);
      BuildFlatten(kids, [Close] + (Flatten(g) + rest));
      Rotate(Open(header), Flatten(kids), Close, Flatten(g), rest);
      BuildBlock(header, kids, g, rest);
  }

  lemma BuildBlock(header: string, kids: Forest, f: Forest, rest: seq<Event>)
    requires Build(Flatten(kids) + ([Close] + (Flatten(f) + rest))) == (kids, [Close] + (Flatten(f) + rest))
    requires Build(Flatten(f) + rest) == (f, rest)
    ensures Build([Open(header)] + (Flatten(kids) + ([Close] + (Flatten(f) + rest)))) == (Block(header, kids, f), rest)
  {
    hide Flatten;
    var x, y := Flatten(f) + rest, Flatten(kids) + ([Close] + (Flatten(f) + rest));
    assert ([Close] + x)[1..] == x;
    assert ([Open(header)] + y)[1..] == y;
  }

  lemma {:induction false} BuildIsSound(ev: seq<Event>)
    ensures Flatten(Build(ev).0) + Build(ev).1 == ev
    decreases |ev|
  {
    if ev != [] {
      BuildIsSound(ev[1..]);
      match ev[0]
      case Close =>
      case Statement(text) => StatementIsSound(ev);
      case Open(header) =>
        hide Flatten;
        var (kids, r1) := Build(ev[1..]);
        if r1 != [] && r1[0] == Close {
          BuildIsSound(r1[1..]);
          BlockIsSound(ev, kids, r1);
        } else {
          OpenIsSound(ev);
        }
    }
  }

  lemma StatementIsSound(ev: seq<Event>)
    requires ev != [] && ev[0].Statement? && Flatten(Build(ev[1..]).0) + Build(ev[1..]).1 == ev[1..]
    ensures Flatten(Build(ev).0) + Build(ev).1 == ev
  {
    var (f, rest) := Build(ev[1..]);
    Behind(ev[0], Flatten(f), rest);
    assert ev == [ev[0]] + ev[1..];
  }

  lemma OpenIsSound(ev: seq<Event>)
    requires ev != [] && ev[0].Open? && (Build(ev[1..]).1 == [] || Build(ev[1..]).1[0] != Close)
    ensures Flatten(Build(ev).0) + Build(ev).1 == ev
  {
  }

  lemma BuildOpen(ev: seq<Event>, kids: Forest, r1: seq<Event>)
    requires ev != [] && ev[0].Open? && r1 != [] && r1[0] == Close && Build(ev[1..]) == (kids, r1)
    ensures Build(ev).0 == Block(ev[0].header, kids, Build(r1[1..]).0) && Build(ev).1 == Build(r1[1..]).1
  {
    hide Flatten;
  }

  lemma FlattenBlock(header: string, kids: Forest, rest: Forest)
    ensures Flatten(Block(header, kids, rest)) == [Open(header)] + (Flatten(kids) + ([Close] + Flatten(rest)))
  {
  }

  lemma BlockIsSound(ev: seq<Event>, kids: Forest, r1: seq<Event>)
    requires ev != [] && ev[0].Open? && r1 != [] && r1[0] == Close
    requires Build(ev[1..]) == (kids, r1) && Flatten(kids) + r1 == ev[1..]
    requires Flatten(Build(r1[1..]).0) + Build(r1[1..]).1 == r1[1..]
    ensures Flatten(Build(ev).0) + Build(ev).1 == ev
  {
    hide *;
    var f, rest := Build(r1[1..]).0, Build(r1[1..]).1;
    BuildOpen(ev, kids, r1);
    FlattenBlock(ev[0].header, kids, f);
    Rotate(ev[0], Flatten(kids), Close, Flatten(f), rest);
    assert r1 == [Close] + r1[1..];
    assert ev == [ev[0]] + ev[1..];
  }

  /** The tree of a text, when parse_config accepts it. */
  function Tree(text: string): Option<Forest> {
    var m := Run(INIT, text);
    var (f, rest) := Build(m.out);
    if m.lex.Quote? || !Blank(m.pending) || rest != [] || !Headed(f) then None else Some(f)
  }

  lemma TreeFromEvents(text: string, f: Forest)
    requires !Run(INIT, text).lex.Quote? && Blank(Run(INIT, text).pending)
    requires Run(INIT, text).out == Flatten(f) && Headed(f)
    ensures Tree(text) == Some(f)
  {
    BuildFlatten(f, []);
    assert Flatten(f) + [] == Flatten(f);
  }

  lemma TreeGivesEvents(text: string)
    requires Tree(text).Some?
    ensures Run(INIT, text).out == Flatten(Tree(text).value) && Headed(Tree(text).value)
    ensures !Run(INIT, text).lex.Quote? && Blank(Run(INIT, text).pending)
  {
    BuildIsSound(Run(INIT, text).out);
  }
}
