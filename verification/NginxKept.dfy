/** The children that the rewrite keeps: their raw text survives every stage, so a second run keeps them too. */
module NginxKept {
  import opened Text
  import opened NginxLexer
  import opened NginxEvents
  import opened NginxOffsets
  import opened NginxTree
  import opened NginxParser
  import opened NginxParserTree
  import opened NginxLists
  import opened NginxTreeEdit
  import opened NginxRules
  import opened NginxSplice
  import opened NginxSnippets
  import opened NginxRewrite
  import opened NginxCommute
  import opened NginxStages
  import opened NginxGates
  import opened NginxShift
  import opened NginxMarkers

  /** Header and body of the block of this level whose opening brace is event `id`. */
  function TopAt(f: Forest, base: nat, id: int): Option<(string, Forest)> {
    match f
    case End => None
    case Directive(_, rest) => TopAt(rest, base + 1, id)
    case Block(header, kids, rest) => if id == base then Some((header, kids)) else TopAt(rest, base + 2 + Size(kids), id)
  }

  lemma {:induction false} TopBounds(f: Forest, base: nat, id: int)
    requires TopAt(f, base, id).Some?
    ensures base <= id && id + 2 + Size(TopAt(f, base, id).value.1) <= base + Size(f)
  {
    match f
    case Directive(_, rest) => TopBounds(rest, base + 1, id);
    case Block(_, kids, rest) => if id != base { TopBounds(rest, base + 2 + Size(kids), id); }
  }

  lemma {:induction false} TopAppend(f: Forest, g: Forest, base: nat, id: int)
    ensures TopAt(Append(f, g), base, id)
         == if id < base + Size(f) then TopAt(f, base, id) else TopAt(g, base + Size(f), id)
  {
    match f
    case End =>
      TopLimits(g, base, id);
    case Directive(_, rest) =>
      TopAppend(rest, g, base + 1, id);
    case Block(header, kids, rest) =>
      TopAppend(rest, g, base + 2 + Size(kids), id);
      hide TopAt, Append, Size;
      TopAppendBlock(header, kids, rest, g, base, id);
  }

  lemma TopAppendBlock(header: string, kids: Forest, rest: Forest, g: Forest, base: nat, id: int)
    requires var m := base + 2 + Size(kids);
             TopAt(Append(rest, g), m, id) == if id < m + Size(rest) then TopAt(rest, m, id) else TopAt(g, m + Size(rest), id)
    ensures var f := Block(header, kids, rest);
            TopAt(Append(f, g), base, id) == if id < base + Size(f) then TopAt(f, base, id) else TopAt(g, base + Size(f), id)
  {
    hide *;
    var m := base + 2 + Size(kids);
    AppendBlock(header, kids, rest, g);
    TopAtBlock(header, kids, rest, base, id);
    TopAtBlock(header, kids, Append(rest, g), base, id);
    TopLimits(rest, m, id);
    TopLimits(g, m + Size(rest), id);
  }

  lemma AppendBlock(header: string, kids: Forest, rest: Forest, g: Forest)
    ensures Append(Block(header, kids, rest), g) == Block(header, kids, Append(rest, g))
    ensures Size(Block(header, kids, rest)) == 2 + Size(kids) + Size(rest)
  {
  }

  lemma TopAtBlock(header: string, kids: Forest, rest: Forest, base: nat, id: int)
    ensures TopAt(Block(header, kids, rest), base, id)
         == if id == base then Some((header, kids)) else TopAt(rest, base + 2 + Size(kids), id)
  {
    hide Size;
  }

  lemma TopLimits(f: Forest, base: nat, id: int)
    ensures id < base || base + Size(f) <= id ==> TopAt(f, base, id).None?
  {
    if TopAt(f, base, id).Some? {
      TopBounds(f, base, id);
    }
  }

  /* ---------------------------------------------------------------- where a kept child came from */

  lemma TotalCons<T>(e: Edit<T>, es: seq<Edit<T>>, n: nat)
    requires n <= |es|
    ensures TotalDelta(([e] + es)[..n + 1]) == Delta(e) + TotalDelta(es[..n])
  {
    assert ([e] + es)[..n + 1][1..] == es[..n];
  }

  /** A child of the new body, at `id`, and the child `i` it came from, behind `n` of the edits. */
  ghost predicate Origin(xs: seq<Edit<Event>>, base: nat, to: int, id: int, i: int, j: int, n: nat) {
    Around(xs, n, i, j) && id == to + (i - base) + TotalDelta(xs[..n])
  }

  lemma OriginLater(xs: seq<Edit<Event>>, base: nat, m: nat, to: int, id: int, i: int, j: int, n: nat)
    requires Origin(xs, m, to + (m - base), id, i, j, n)
    ensures Origin(xs, base, to, id, i, j, n)
  {
  }

  lemma OriginBehind(e: Edit<Event>, xs: seq<Edit<Event>>, base: nat, m: nat, to: int, id: int, i: int, j: int, n: nat)
    requires e.end <= i && Origin(xs, m, to + (m - base) + Delta(e), id, i, j, n)
    ensures Origin([e] + xs, base, to, id, i, j, n + 1)
  {
    TotalCons(e, xs, n);
    var ys := [e] + xs;
    assert forall k :: 0 < k < |ys| ==> ys[k] == xs[k - 1];
  }

  lemma OriginFirst(xs: seq<Edit<Event>>, base: nat, to: int, j: int)
    requires forall k :: 0 <= k < |xs| ==> xs[k].start > j
    ensures Origin(xs, base, to, to, base, j, 0)
  {
    assert xs[..0] == [];
  }

  lemma {:induction false} PruneEditsLater(f: Forest, base: nat, drop: set<nat>)
    ensures forall k :: 0 <= k < |PruneEdits(f, base, drop)| ==> PruneEdits(f, base, drop)[k].start >= base
    decreases f
  {
    match f
    case End =>
    case Directive(_, rest) => PruneEditsLater(rest, base + 1, drop);
    case Block(_, kids, rest) => PruneEditsLater(rest, base + 2 + Size(kids), drop);
  }

  lemma {:induction false} GateEditsLater(f: Forest, base: nat, gate: string)
    ensures forall k :: 0 <= k < |GateEdits(f, base, gate)| ==> GateEdits(f, base, gate)[k].start >= base
    decreases f
  {
    hide NeedsGate, Texts;
    match f
    case End =>
    case Directive(_, rest) => GateEditsLater(rest, base + 1, gate);
    case Block(_, kids, rest) => GateEditsLater(rest, base + 2 + Size(kids), gate);
  }

  /** The child that is block `id` of the pruned body, whose first event is `to`. */
  lemma {:induction false} PruneOrigin(f: Forest, base: nat, drop: set<nat>, to: nat, id: int) returns (i: nat, n: nat)
    requires TopAt(Prune(f, base, drop), to, id).Some?
    ensures i !in drop && TopAt(f, base, i) == TopAt(Prune(f, base, drop), to, id)
    ensures Origin(PruneEdits(f, base, drop), base, to, id, i, i + 1 + Size(TopAt(f, base, i).value.1), n)
    decreases f
  {
    hide Origin, Size;
    match f
    case Directive(_, rest) =>
      i, n := PruneOrigin(rest, base + 1, drop, to + 1, id);
      TopBounds(rest, base + 1, i);
      OriginLater(PruneEdits(f, base, drop), base, base + 1, to, id, i, i + 1 + Size(TopAt(f, base, i).value.1), n);
    case Block(header, kids, rest) =>
      var m := base + 2 + Size(kids);
      if base in drop {
        i, n := PruneOrigin(rest, m, drop, to, id);
        TopBounds(rest, m, i);
        OriginBehind(Edit(base, m, []), PruneEdits(rest, m, drop), base, m, to, id, i, i + 1 + Size(TopAt(f, base, i).value.1), n);
        n := n + 1;
      } else if id == to {
        i, n := base, 0;
        PruneEditsLater(rest, m, drop);
        assert PruneEdits(f, base, drop) == PruneEdits(rest, m, drop);
        OriginFirst(PruneEdits(f, base, drop), base, to, m - 1);
      } else {
        i, n := PruneOrigin(rest, m, drop, to + 2 + Size(kids), id);
        TopBounds(rest, m, i);
        OriginLater(PruneEdits(f, base, drop), base, m, to, id, i, i + 1 + Size(TopAt(f, base, i).value.1), n);
      }
  }

  /** The child that is block `id` of the gated body; if it was gated, edit `n` is its include. */
  lemma {:induction false} GateOrigin(f: Forest, base: nat, gate: string, to: nat, id: int) returns (i: nat, n: nat)
    requires TopAt(Gate(f, gate), to, id).Some?
    ensures TopAt(f, base, i).Some? && GatedFrom(f, base, gate, i, TopAt(Gate(f, gate), to, id).value)
    ensures GateEditsAround(f, base, gate, to, id, i, n)
    decreases f
  {
    hide NeedsGate, Texts, GateEditsAround;
    match f
    case Directive(_, rest) =>
      i, n := GateOrigin(rest, base + 1, gate, to + 1, id);
      TopBounds(rest, base + 1, i);
      GateLaterDirective(f, base, gate, to, id, i, n);
    case Block(header, kids, rest) =>
      var m := base + 2 + Size(kids);
      if id == to {
        i, n := base, 0;
        GateFirst(f, base, gate, to);
      } else {
        var gated := NeedsGate(header, Texts(kids)) == Ok(true);
        i, n := GateOrigin(rest, m, gate, to + 2 + Size(kids) + (if gated then 1 else 0), id);
        TopBounds(rest, m, i);
        GateLaterBlock(f, base, gate, to, id, i, n);
        n := if gated then n + 1 else n;
      }
  }

  /** The block is the old one, with the include as first directive if it needed one. */
  predicate GatedFrom(f: Forest, base: nat, gate: string, i: int, now: (string, Forest)) {
    var was := TopAt(f, base, i);
    was.Some? && now.0 == was.value.0
    && now.1 == if NeedsGate(was.value.0, Texts(was.value.1)) == Ok(true) then Directive(gate, was.value.1) else was.value.1
  }

  ghost predicate GateEditsAround(f: Forest, base: nat, gate: string, to: int, id: int, i: int, n: nat) {
    var xs := GateEdits(f, base, gate);
    0 <= i && TopAt(f, base, i).Some?
    && var (header, kids) := TopAt(f, base, i).value;
       var j := i + 1 + Size(kids);
       if NeedsGate(header, Texts(kids)) == Ok(true) then
         && n < |xs| && xs[n] == Edit(i + 1, i + 1, [Statement(gate)])
         && (forall k :: 0 <= k < n ==> xs[k].end <= i) && (forall k :: n < k < |xs| ==> xs[k].start > j)
         && id == to + (i - base) + TotalDelta(xs[..n])
       else Origin(xs, base, to, id, i, j, n)
  }

  lemma GateLaterDirective(f: Forest, base: nat, gate: string, to: int, id: int, i: int, n: nat)
    requires f.Directive? && TopAt(f.rest, base + 1, i).Some? && base + 1 <= i && GateEditsAround(f.rest, base + 1, gate, to + 1, id, i, n)
    ensures GateEditsAround(f, base, gate, to, id, i, n)
  {
    hide NeedsGate, Texts;
  }

  lemma GateFirst(f: Forest, base: nat, gate: string, to: int)
    requires f.Block?
    ensures GateEditsAround(f, base, gate, to, to, base, 0)
  {
    hide NeedsGate, Texts;
    var m := base + 2 + Size(f.kids);
    GateEditsLater(f.rest, m, gate);
    var ys, xs := GateEdits(f.rest, m, gate), GateEdits(f, base, gate);
    assert xs[..0] == [];
    if NeedsGate(f.header, Texts(f.kids)) == Ok(true) {
      assert forall k :: 0 < k < |xs| ==> xs[k] == ys[k - 1];
    } else {
      OriginFirst(xs, base, to, m - 1);
    }
  }

  lemma GateLaterBlock(f: Forest, base: nat, gate: string, to: int, id: int, i: int, n: nat)
    requires f.Block? && i >= base + 2 + Size(f.kids)
    requires var gated := NeedsGate(f.header, Texts(f.kids)) == Ok(true);
             GateEditsAround(f.rest, base + 2 + Size(f.kids), gate, to + 2 + Size(f.kids) + (if gated then 1 else 0), id, i, n)
    ensures var gated := NeedsGate(f.header, Texts(f.kids)) == Ok(true);
            GateEditsAround(f, base, gate, to, id, i, if gated then n + 1 else n)
  {
    hide NeedsGate, Texts;
    var m := base + 2 + Size(f.kids);
    var ys, xs := GateEdits(f.rest, m, gate), GateEdits(f, base, gate);
    if NeedsGate(f.header, Texts(f.kids)) == Ok(true) {
      var e := Edit(base + 1, base + 1, [Statement(gate)]);
      assert xs == [e] + ys;
      assert forall k :: 0 < k < |xs| ==> xs[k] == ys[k - 1];
      TotalCons(e, ys, n);
    }
  }
}
