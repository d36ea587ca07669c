/** Edits of the block tree, and the same edits on its event stream. */
module NginxTreeEdit {
  import opened Text
  import opened NginxEvents
  import opened NginxTree
  import opened NginxSplice
  import opened NginxRules

  /** Deletes the blocks of this level whose opening brace is one of the events `drop`. */
  function Prune(f: Forest, base: nat, drop: set<nat>): Forest {
    match f
    case End => End
    case Directive(text, rest) => Directive(text, Prune(rest, base + 1, drop))
    case Block(header, kids, rest) =>
      var pruned := Prune(rest, base + 2 + Size(kids), drop);
      if base in drop then pruned else Block(header, kids, pruned)
  }

  function PruneEdits(f: Forest, base: nat, drop: set<nat>): seq<Edit<Event>> {
    match f
    case End => []
    case Directive(_, rest) => PruneEdits(rest, base + 1, drop)
    case Block(_, kids, rest) =>
      var edits := PruneEdits(rest, base + 2 + Size(kids), drop);
      if base in drop then [Edit(base, base + 2 + Size(kids), [])] + edits else edits
  }

  /** Adds the gate include as first directive of every location of this level that needs it. */
  function Gate(f: Forest, gate: string): Forest {
    match f
    case End => End
    case Directive(text, rest) => Directive(text, Gate(rest, gate))
    case Block(header, kids, rest) =>
      Block(header, if NeedsGate(header, Texts(kids)) == Ok(true) then Directive(gate, kids) else kids, Gate(rest, gate))
  }

  function GateEdits(f: Forest, base: nat, gate: string): seq<Edit<Event>> {
    match f
    case End => []
    case Directive(_, rest) => GateEdits(rest, base + 1, gate)
    case Block(header, kids, rest) =>
      var edits := GateEdits(rest, base + 2 + Size(kids), gate);
      if NeedsGate(header, Texts(kids)) == Ok(true) then [Edit(base + 1, base + 1, [Statement(gate)])] + edits else edits
  }

  /** One block of the gate edits, with the sizes before and after. */
  lemma GateBlock(header: string, kids: Forest, rest: Forest, base: nat, gate: string)
    ensures var f, m := Block(header, kids, rest), base + 2 + Size(kids);
            var gated := NeedsGate(header, Texts(kids)) == Ok(true);
            && GateEdits(f, base, gate)
               == (if gated then [Edit(base + 1, base + 1, [Statement(gate)])] else []) + GateEdits(rest, m, gate)
            && Size(Gate(f, gate)) == 2 + Size(kids) + (if gated then 1 else 0) + Size(Gate(rest, gate))
            && Size(f) == 2 + Size(kids) + Size(rest)
  {
    hide NeedsGate, Texts;
  }

  /** Header and body of the block whose opening brace is event `id`, the first event being `base`. */
  function NodeAt(f: Forest, base: nat, id: int): Option<(string, Forest)> {
    match f
    case End => None
    case Directive(_, rest) => NodeAt(rest, base + 1, id)
    case Block(header, kids, rest) =>
      if id == base then Some((header, kids))
      else if id < base + 1 + Size(kids) then NodeAt(kids, base + 1, id)
      else NodeAt(rest, base + 2 + Size(kids), id)
  }

  /** Replaces the body of block `id`. */
  function SetKids(f: Forest, base: nat, id: int, body: Forest): Forest {
    match f
    case End => End
    case Directive(text, rest) => Directive(text, SetKids(rest, base + 1, id, body))
    case Block(header, kids, rest) =>
      if id == base then Block(header, body, rest)
      else if id < base + 1 + Size(kids) then Block(header, SetKids(kids, base + 1, id, body), rest)
      else Block(header, kids, SetKids(rest, base + 2 + Size(kids), id, body))
  }

  /* ---------------------------------------------------------------- flattened */

  lemma SpliceMiddle<T>(a: seq<T>, b: seq<T>, put: seq<T>, c: seq<T>)
    ensures Splice(a + b + c, Edit(|a|, |a| + |b|, put)) == a + put + c
  {
    var s := a + b + c;
    assert s[..|a|] == a;
    assert s[|a| + |b|..] == c;
  }

  function BlockEvents(header: string, kids: Forest): (r: seq<Event>)
    ensures |r| == 2 + Size(kids)
  {
    [Open(header)] + (Flatten(kids) + [Close])
  }

  lemma FlattenBlock(header: string, kids: Forest, rest: Forest)
    ensures Flatten(Block(header, kids, rest)) == BlockEvents(header, kids) + Flatten(rest)
  {
  }

  /** Three steps of an edit that has already been made behind the piece `s`: keep `s`, ... */
  lemma KeepStep<T>(pre: seq<T>, s: seq<T>, t: seq<T>, u: seq<T>, post: seq<T>, after: seq<T>, edits: seq<Edit<T>>)
    requires ApplyAll((pre + s) + t + post, edits) == (pre + s) + u + after
    ensures ApplyAll(pre + (s + t) + post, edits) == pre + (s + u) + after
  {
    hide ApplyAll;
    assert (pre + s) + t + post == pre + (s + t) + post;
    assert (pre + s) + u + after == pre + (s + u) + after;
  }

  /** ... delete `s`, ... */
  lemma DropStep<T>(pre: seq<T>, s: seq<T>, t: seq<T>, u: seq<T>, post: seq<T>, after: seq<T>, edits: seq<Edit<T>>)
    requires ApplyAll((pre + s) + t + post, edits) == (pre + s) + u + after
    ensures ApplyAll(pre + (s + t) + post, [Edit(|pre|, |pre| + |s|, [])] + edits) == pre + u + after
  {
    hide ApplyAll, Splice;
    var ev := pre + (s + t) + post;
    assert (pre + s) + t + post == ev;
    ApplyFirst(ev, Edit(|pre|, |pre| + |s|, []), edits);
    assert (pre + s) + u + after == pre + s + (u + after);
    SpliceMiddle(pre, s, [], u + after);
    assert pre + [] + (u + after) == pre + u + after;
  }

  /** ... or put `g` behind its first element. */
  lemma InsertStep<T>(pre: seq<T>, o: T, b: seq<T>, g: seq<T>, t: seq<T>, u: seq<T>, post: seq<T>, after: seq<T>, edits: seq<Edit<T>>)
    requires ApplyAll((pre + ([o] + b)) + t + post, edits) == (pre + ([o] + b)) + u + after
    ensures ApplyAll(pre + (([o] + b) + t) + post, [Edit(|pre| + 1, |pre| + 1, g)] + edits)
         == pre + (([o] + (g + b)) + u) + after
  {
    hide ApplyAll, Splice;
    var ev := pre + (([o] + b) + t) + post;
    assert (pre + ([o] + b)) + t + post == ev;
    ApplyFirst(ev, Edit(|pre| + 1, |pre| + 1, g), edits);
    InsertRegroups(pre, o, b, g, u + after);
    assert (pre + ([o] + b)) + u + after == (pre + ([o] + b)) + (u + after);
    SpliceMiddle(pre + [o], [], g, b + (u + after));
    assert pre + (([o] + (g + b)) + (u + after)) == pre + (([o] + (g + b)) + u) + after;
  }

  lemma InsertRegroups<T>(pre: seq<T>, o: T, b: seq<T>, g: seq<T>, tail: seq<T>)
    ensures (pre + ([o] + b)) + tail == (pre + [o]) + [] + (b + tail)
    ensures (pre + [o]) + g + (b + tail) == pre + (([o] + (g + b)) + tail)
  {
  }

  lemma ApplyFirst<T>(s: seq<T>, e: Edit<T>, edits: seq<Edit<T>>)
    ensures ApplyAll(s, [e] + edits) == Splice(ApplyAll(s, edits), e)
  {
    assert ([e] + edits)[1..] == edits;
  }

  /** Deleting blocks from the tree deletes their events; `x` is put behind the forest. */
  lemma {:induction false} PruneFlattens(f: Forest, drop: set<nat>, pre: seq<Event>, x: seq<Event>, post: seq<Event>)
    ensures ApplyAll(pre + Flatten(f) + post, PruneEdits(f, |pre|, drop) + [Edit(|pre| + Size(f), |pre| + Size(f), x)])
         == pre + Flatten(Prune(f, |pre|, drop)) + (x + post)
    decreases f
  {
    hide ApplyAll, Splice, Flatten;
    var base, e := |pre|, |pre| + Size(f);
    var last := [Edit(e, e, x)];
    match f
    case End =>
      FlattenEnd(pre, post);
      FlattenEnd(pre, x + post);
      InsertOne(pre, x, post);
      assert [] + last == last;
    case Directive(text, rest) =>
      FlattenDirective(text, rest);
      FlattenDirective(text, Prune(rest, base + 1, drop));
      PruneFlattens(rest, drop, pre + [Statement(text)], x, post);
      KeepStep(pre, [Statement(text)], Flatten(rest), Flatten(Prune(rest, base + 1, drop)), post, x + post,
               PruneEdits(f, base, drop) + last);
    case Block(header, kids, rest) =>
      var s, edits := BlockEvents(header, kids), PruneEdits(rest, base + 2 + Size(kids), drop);
      var pruned := Prune(rest, base + 2 + Size(kids), drop);
      FlattenBlock(header, kids, rest);
      FlattenBlock(header, kids, pruned);
      PruneFlattens(rest, drop, pre + s, x, post);
      if base in drop {
        DropStep(pre, s, Flatten(rest), Flatten(pruned), post, x + post, edits + last);
        assert PruneEdits(f, base, drop) + last == [Edit(base, base + |s|, [])] + (edits + last);
      } else {
        KeepStep(pre, s, Flatten(rest), Flatten(pruned), post, x + post, edits + last);
      }
  }

  lemma FlattenDirective(text: string, rest: Forest)
    ensures Flatten(Directive(text, rest)) == [Statement(text)] + Flatten(rest)
  {
  }

  lemma SpliceBetween<T>(pre: seq<T>, x: seq<T>, post: seq<T>)
    ensures Splice(pre + post, Edit(|pre|, |pre|, x)) == pre + (x + post)
  {
    assert (pre + post)[..|pre|] == pre;
    assert (pre + post)[|pre|..] == post;
  }

  lemma InsertOne<T>(pre: seq<T>, x: seq<T>, post: seq<T>)
    ensures ApplyAll(pre + post, [Edit(|pre|, |pre|, x)]) == pre + (x + post)
  {
    hide Splice;
    var edits := [Edit(|pre|, |pre|, x)];
    assert edits[1..] == [];
    SpliceBetween(pre, x, post);
  }

  lemma FlattenEnd(pre: seq<Event>, post: seq<Event>)
    ensures pre + Flatten(End) + post == pre + post
  {
  }

  lemma {:induction false} GateFlattens(f: Forest, gate: string, pre: seq<Event>, post: seq<Event>)
    ensures ApplyAll(pre + Flatten(f) + post, GateEdits(f, |pre|, gate)) == pre + Flatten(Gate(f, gate)) + post
    decreases f
  {
    hide ApplyAll, Splice, Flatten, NeedsGate, Texts;
    match f
    case End =>
      ApplyNothing(pre + Flatten(f) + post);
    case Directive(text, rest) =>
      FlattenDirective(text, rest);
      FlattenDirective(text, Gate(rest, gate));
      GateFlattens(rest, gate, pre + [Statement(text)], post);
      KeepStep(pre, [Statement(text)], Flatten(rest), Flatten(Gate(rest, gate)), post, post, GateEdits(f, |pre|, gate));
    case Block(header, kids, rest) =>
      var s, edits := BlockEvents(header, kids), GateEdits(rest, |pre| + 2 + Size(kids), gate);
      var gated := Gate(rest, gate);
      FlattenBlock(header, kids, rest);
      GateFlattens(rest, gate, pre + s, post);
      if NeedsGate(header, Texts(kids)) == Ok(true) {
        FlattenBlock(header, Directive(gate, kids), gated);
        FlattenDirective(gate, kids);
        InsertStep(pre, Open(header), Flatten(kids) + [Close], [Statement(gate)], Flatten(rest), Flatten(gated), post, post, edits);
        assert [Statement(gate)] + (Flatten(kids) + [Close]) == ([Statement(gate)] + Flatten(kids)) + [Close];
      } else {
        FlattenBlock(header, kids, gated);
        KeepStep(pre, s, Flatten(rest), Flatten(gated), post, post, edits);
      }
  }

  lemma ApplyNothing<T>(s: seq<T>)
    ensures ApplyAll(s, []) == s
  {
  }

  lemma {:induction false} NodeBounds(f: Forest, base: nat, id: int)
    requires NodeAt(f, base, id).Some?
    ensures base <= id && id + 2 + Size(NodeAt(f, base, id).value.1) <= base + Size(f)
  {
    match f
    case End =>
    case Directive(_, rest) => NodeBounds(rest, base + 1, id);
    case Block(_, kids, rest) =>
      if id != base {
        if id < base + 1 + Size(kids) {
          NodeBounds(kids, base + 1, id);
        } else {
          NodeBounds(rest, base + 2 + Size(kids), id);
        }
      }
  }

  /** `after` is `before` with the slice `was` at position `i` replaced by `put`. */
  ghost predicate Replaces<T>(before: seq<T>, after: seq<T>, i: int, was: seq<T>, put: seq<T>) {
    && 0 <= i && i + |was| <= |before|
    && before[i..i + |was|] == was
    && after == before[..i] + put + before[i + |was|..]
  }

  lemma ReplacesInside<T>(a: seq<T>, m: seq<T>, n: seq<T>, c: seq<T>, i: int, was: seq<T>, put: seq<T>)
    requires Replaces(m, n, i, was, put)
    ensures Replaces(a + (m + c), a + (n + c), |a| + i, was, put)
  {
    var ev := a + (m + c);
    assert ev[|a| + i..|a| + i + |was|] == was;
    assert ev[..|a| + i] == a + m[..i];
    assert ev[|a| + i + |was|..] == m[i + |was|..] + c;
    hide Replaces;
    assert (a + m[..i]) + put + (m[i + |was|..] + c) == a + ((m[..i] + put + m[i + |was|..]) + c);
  }

  lemma ReplacesLast<T>(a: seq<T>, m: seq<T>, n: seq<T>, i: int, was: seq<T>, put: seq<T>)
    requires Replaces(m, n, i, was, put)
    ensures Replaces(a + m, a + n, |a| + i, was, put)
  {
    ReplacesInside(a, m, n, [], i, was, put);
    assert m + [] == m && n + [] == n;
  }

  lemma ReplacesBody<T>(open: T, was: seq<T>, put: seq<T>, tail: seq<T>)
    ensures Replaces([open] + (was + tail), [open] + (put + tail), 1, was, put)
  {
    assert ([open] + (was + tail))[1 + |was|..] == tail;
  }

  /** Replacing the body of a block replaces the events of its body. */
  lemma {:induction false} SetKidsFlattens(f: Forest, base: nat, id: int, body: Forest)
    requires NodeAt(f, base, id).Some?
    ensures Replaces(Flatten(f), Flatten(SetKids(f, base, id, body)), id - base + 1,
                     Flatten(NodeAt(f, base, id).value.1), Flatten(body))
    decreases f
  {
    hide Replaces, Flatten;
    var was, put := Flatten(NodeAt(f, base, id).value.1), Flatten(body);
    match f
    case End =>
    case Directive(text, rest) =>
      var g := SetKids(rest, base + 1, id, body);
      SetKidsFlattens(rest, base + 1, id, body);
      FlattenDirective(text, rest);
      FlattenDirective(text, g);
      ReplacesLast([Statement(text)], Flatten(rest), Flatten(g), id - base, was, put);
    case Block(header, kids, rest) =>
      OpenFlatten(header, kids, rest);
      if id == base {
        OpenFlatten(header, body, rest);
        ReplacesBody(Open(header), was, put, [Close] + Flatten(rest));
      } else if id < base + 1 + Size(kids) {
        var g := SetKids(kids, base + 1, id, body);
        OpenFlatten(header, g, rest);
        SetKidsFlattens(kids, base + 1, id, body);
        ReplacesInside([Open(header)], Flatten(kids), Flatten(g), [Close] + Flatten(rest), id - base, was, put);
      } else {
        var g := SetKids(rest, base + 2 + Size(kids), id, body);
        SetKidsFlattens(rest, base + 2 + Size(kids), id, body);
        FlattenBlock(header, kids, rest);
        FlattenBlock(header, kids, g);
        ReplacesLast(BlockEvents(header, kids), Flatten(rest), Flatten(g), id - base - 1 - Size(kids), was, put);
      }
  }

  lemma OpenFlatten(header: string, kids: Forest, rest: Forest)
    ensures Flatten(Block(header, kids, rest)) == [Open(header)] + (Flatten(kids) + ([Close] + Flatten(rest)))
  {
  }
}
