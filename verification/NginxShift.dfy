/** Where the events of an edited text stand, and that the raw text between them is kept. */
module NginxShift {
  import opened Text
  import opened NginxLexer
  import opened NginxEvents
  import opened NginxOffsets
  import opened NginxSplice

  /** Character `p` completes event number `k`. */
  ghost predicate EventAt(text: string, k: int, p: int) {
    0 <= p < |text| && |At(text, p).out| == k && |At(text, p + 1).out| == k + 1
  }

  lemma EventsGrow(text: string, p: nat, q: nat)
    requires p <= q <= |text|
    ensures |At(text, p).out| <= |At(text, q).out|
  {
    hide At;
    OutIsPrefix(text, p, q);
  }

  lemma EventUnique(text: string, k: int, p: int, q: int)
    requires EventAt(text, k, p) && EventAt(text, k, q)
    ensures p == q
  {
    hide At;
    if p < q {
      EventsGrow(text, p + 1, q);
    } else if q < p {
      EventsGrow(text, q + 1, p);
    }
  }

  lemma MarkIsEvent(text: string, marks: seq<Mark>, k: nat)
    requires AllPlaced(text, marks) && k < |marks|
    ensures EventAt(text, k, marks[k].at)
  {
    hide At, StartPlaced;
    assert Placed(text, marks, k);
  }

  /** Events before `n` stand alike in texts that agree up to `n`. */
  lemma SameBefore(text: string, t: string, n: nat, k: int, p: int)
    requires EventAt(text, k, p) && p < n <= |text| && n <= |t| && t[..n] == text[..n]
    ensures EventAt(t, k, p)
  {
    hide Run;
    assert t[..p] == t[..n][..p] && text[..p] == text[..n][..p];
    assert t[..p + 1] == t[..n][..p + 1] && text[..p + 1] == text[..n][..p + 1];
  }

  /** The number of events read up to a position behind an edit. */
  lemma AtShift(text: string, e: Edit<char>, x: Edit<Event>, q: nat)
    requires Matches(text, e, x) && Blank(At(text, e.end).pending) && e.end <= q <= |text|
    ensures var t := Splice(text, e);
            var q' := q + |e.put| - (e.end - e.start);
            && 0 <= q' <= |t| && x.start <= x.end <= |At(text, q).out|
            && |At(t, q').out| == |At(text, q).out| + |x.put| - (x.end - x.start)
            && (Blank(At(t, q').pending) <==> Blank(At(text, q).pending))
  {
    hide Run, Blank;
    var s := text[..q];
    assert s[..e.start] == text[..e.start] && s[..e.end] == text[..e.end];
    SpliceEvents(s, e, x);
    var q' := q + |e.put| - (e.end - e.start);
    assert Splice(text, e)[..q'] == Splice(s, e);
    EventsGrow(text, e.start, e.end);
    EventsGrow(text, e.end, q);
  }

  function Delta<T>(e: Edit<T>): int { |e.put| - (e.end - e.start) }

  function TotalDelta<T>(es: seq<Edit<T>>): int {
    if es == [] then 0 else Delta(es[0]) + TotalDelta(es[1..])
  }

  lemma ShiftBehind(text: string, e: Edit<char>, x: Edit<Event>, k: int, p: int)
    requires Matches(text, e, x) && Blank(At(text, e.end).pending) && EventAt(text, k, p) && e.end <= p
    ensures EventAt(Splice(text, e), k + Delta(x), p + Delta(e))
  {
    hide At, Matches, Splice;
    AtShift(text, e, x, p);
    AtShift(text, e, x, p + 1);
    SpliceSize(text, e, x);
  }

  lemma SpliceSize(text: string, e: Edit<char>, x: Edit<Event>)
    requires Matches(text, e, x)
    ensures |Splice(text, e)| == |text| + Delta(e)
  {
    hide At;
  }

  /** A block whose braces are events `i` and `j` at positions `p` and `q`. */
  ghost predicate BlockAt(text: string, i: int, j: int, p: int, q: int) {
    EventAt(text, i, p) && EventAt(text, j, q) && p < q
  }

  function Body(text: string, p: int, q: int): string {
    if 0 <= p < q <= |text| then text[p + 1..q] else ""
  }

  /** Edits of which the first `n` lie before the block and the others behind it. */
  predicate Around(xs: seq<Edit<Event>>, n: nat, i: int, j: int) {
    && n <= |xs|
    && (forall m :: 0 <= m < n ==> xs[m].end <= i)
    && (forall m :: n <= m < |xs| ==> xs[m].start > j)
  }

  ghost predicate BlankEnds(text: string, es: seq<Edit<char>>) {
    forall m :: 0 <= m < |es| ==> es[m].end <= |text| && Blank(At(text, es[m].end).pending)
  }

  /** An edit of earlier events ends before a later event, and one of later events starts behind it. */
  lemma EditSide(text: string, e: Edit<char>, x: Edit<Event>, k: int, p: int)
    requires Matches(text, e, x) && EventAt(text, k, p)
    ensures x.end <= k ==> e.end <= p
    ensures x.start > k ==> e.start > p
  {
    hide Run;
    if e.end > p {
      EventsGrow(text, p + 1, e.end);
    }
    if e.start <= p {
      EventsGrow(text, e.start, p);
    }
  }

  /** The body of a block is kept by a splice before it. */
  lemma BodyBehind(text: string, e: Edit<char>, p: int, q: int)
    requires e.start <= e.end <= p < q < |text|
    ensures var d := Delta(e); Body(Splice(text, e), p + d, q + d) == Body(text, p, q)
  {
    var d := Delta(e);
    var t := Splice(text, e);
    assert t == text[..e.start] + e.put + text[e.end..];
    assert forall i :: p + 1 <= i < q ==> t[i + d] == text[i];
    assert t[p + d + 1..q + d] == text[p + 1..q];
  }

  lemma BodyBefore(text: string, t: string, n: nat, p: int, q: int)
    requires 0 <= p < q < n <= |text| && n <= |t| && t[..n] == text[..n]
    ensures Body(t, p, q) == Body(text, p, q)
  {
    assert t[p + 1..q] == t[..n][p + 1..q];
    assert text[p + 1..q] == text[..n][p + 1..q];
  }

  lemma AroundTail(xs: seq<Edit<Event>>, n: nat, i: int, j: int)
    requires Around(xs, n, i, j) && n > 0
    ensures Around(xs[1..], n - 1, i, j)
  {
    assert forall m :: 0 <= m < |xs| - 1 ==> xs[1..][m] == xs[m + 1];
  }

  /** The first edit fits the text into which the later ones have been made. */
  lemma FirstStillFits(text: string, es: seq<Edit<char>>, xs: seq<Edit<Event>>)
    requires AllMatch(text, es, xs) && BlankEnds(text, es) && es != []
    ensures var t := ApplyAll(text, es[1..]);
            && es[0].end <= |t| && t[..es[0].end] == text[..es[0].end]
            && Matches(t, es[0], xs[0]) && Blank(At(t, es[0].end).pending)
            && AllMatch(text, es[1..], xs[1..]) && BlankEnds(text, es[1..])
            && ApplyAll(text, es) == Splice(t, es[0])
  {
    hide Run, Blank, Matches, Splice, Ascending;
    AscendingTail(es, |text|);
    AllMatchTail(text, es, xs);
    ApplyKeepsPrefix(text, es[1..], es[0].end);
    var t := ApplyAll(text, es[1..]);
    FitsInPrefix(text, t, es[0], xs[0]);
    assert forall m :: 0 <= m < |es| - 1 ==> es[1..][m] == es[m + 1];
  }

  lemma FitsInPrefix(text: string, t: string, e: Edit<char>, x: Edit<Event>)
    requires Matches(text, e, x) && Blank(At(text, e.end).pending)
    requires e.end <= |t| && t[..e.end] == text[..e.end]
    ensures Matches(t, e, x) && Blank(At(t, e.end).pending)
  {
    hide Run, Blank;
    assert t[..e.start] == t[..e.end][..e.start] == text[..e.start];
  }

  /** No edit touches a block that all of them lie behind. */
  lemma BlockInFront(text: string, es: seq<Edit<char>>, xs: seq<Edit<Event>>, i: int, j: int, p: int, q: int)
    requires AllMatch(text, es, xs) && Around(xs, 0, i, j) && BlockAt(text, i, j, p, q)
    ensures var t := ApplyAll(text, es); BlockAt(t, i, j, p, q) && Body(t, p, q) == Body(text, p, q)
  {
    hide At, Matches, ApplyAll, Body;
    if es != [] {
      assert Matches(text, es[0], xs[0]) && xs[0].start > j;
      EditSide(text, es[0], xs[0], j, q);
    }
    ApplyKeepsPrefix(text, es, q + 1);
    var t := ApplyAll(text, es);
    SameBefore(text, t, q + 1, i, p);
    SameBefore(text, t, q + 1, j, q);
    BodyBefore(text, t, q + 1, p, q);
  }

  /** One splice before a block. */
  lemma BlockBehind(text: string, e: Edit<char>, x: Edit<Event>, i: int, j: int, p: int, q: int)
    requires Matches(text, e, x) && Blank(At(text, e.end).pending) && BlockAt(text, i, j, p, q) && e.end <= p
    ensures var t, dx, dp := Splice(text, e), Delta(x), Delta(e);
            && BlockAt(t, i + dx, j + dx, p + dp, q + dp) && Body(t, p + dp, q + dp) == Body(text, p, q)
            && e.start <= p + dp
  {
    hide At, Splice, Body, Run, Blank;
    ShiftBehind(text, e, x, i, p);
    ShiftBehind(text, e, x, j, q);
    BodyBehind(text, e, p, q);
  }

  /** The braces shift by the first `n` edits, and the body is kept. */
  ghost predicate Moved(text: string, es: seq<Edit<char>>, xs: seq<Edit<Event>>, n: nat, i: int, j: int, p: int, q: int)
    requires n <= |es| == |xs|
  {
    var t, dx, dp := ApplyAll(text, es), TotalDelta(xs[..n]), TotalDelta(es[..n]);
    && BlockAt(t, i + dx, j + dx, p + dp, q + dp) && Body(t, p + dp, q + dp) == Body(text, p, q)
    && (n > 0 ==> es[0].start <= p + dp)
  }

  /** A block between edits moves as a whole. */
  lemma {:induction false} BlockMoves(text: string, es: seq<Edit<char>>, xs: seq<Edit<Event>>, n: nat, i: int, j: int, p: int, q: int)
    requires AllMatch(text, es, xs) && BlankEnds(text, es) && Around(xs, n, i, j) && BlockAt(text, i, j, p, q)
    ensures n <= |es| == |xs| && Moved(text, es, xs, n, i, j, p, q)
    decreases n
  {
    hide At, Matches, ApplyAll, Body, Splice, Blank, Around, BlankEnds, Delta;
    if n == 0 {
      BlockInFront(text, es, xs, i, j, p, q);
      assert xs[..0] == [] && es[..0] == [];
    } else {
      hide Moved;
      AroundTail(xs, n, i, j);
      AroundFirst(text, es, xs, n, i, j, p);
      FirstStillFits(text, es, xs);
      BlockMoves(text, es[1..], xs[1..], n - 1, i, j, p, q);
      MoveStep(text, es, xs, n, i, j, p, q);
    }
  }

  lemma MoveStep(text: string, es: seq<Edit<char>>, xs: seq<Edit<Event>>, n: nat, i: int, j: int, p: int, q: int)
    requires AllMatch(text, es, xs) && BlankEnds(text, es) && 0 < n <= |es| && es[0].end <= p
    requires Moved(text, es[1..], xs[1..], n - 1, i, j, p, q)
    ensures Moved(text, es, xs, n, i, j, p, q)
  {
    hide At, Matches, ApplyAll, Body, Splice, Blank, BlankEnds, Delta, BlockAt;
    FirstStillFits(text, es, xs);
    DeltaHead(xs, n);
    DeltaHead(es, n);
    var t, dx, dp := ApplyAll(text, es[1..]), TotalDelta(xs[1..][..n - 1]), TotalDelta(es[1..][..n - 1]);
    EndBelow(text, es, xs, n, p, dp);
    hide AllMatch, TotalDelta;
    BlockBehind(t, es[0], xs[0], i + dx, j + dx, p + dp, q + dp);
  }

  lemma EndBelow(text: string, es: seq<Edit<char>>, xs: seq<Edit<Event>>, n: nat, p: int, dp: int)
    requires AllMatch(text, es, xs) && 0 < n <= |es| && es[0].end <= p
    requires dp == TotalDelta(es[1..][..n - 1]) && (n > 1 ==> es[1..][0].start <= p + dp)
    ensures es[0].end <= p + dp
  {
    hide Matches;
    if n == 1 {
      assert es[1..][..0] == [];
    } else {
      assert es[0].end <= StartOr(es, 1, |text|);
    }
  }

  lemma AroundFirst(text: string, es: seq<Edit<char>>, xs: seq<Edit<Event>>, n: nat, i: int, j: int, p: int)
    requires AllMatch(text, es, xs) && Around(xs, n, i, j) && n > 0 && EventAt(text, i, p)
    ensures es != [] && es[0].end <= p
  {
    hide Run;
    assert Matches(text, es[0], xs[0]) && xs[0].end <= i;
    EditSide(text, es[0], xs[0], i, p);
  }

  lemma DeltaHead<T>(es: seq<Edit<T>>, n: nat)
    requires 0 < n <= |es|
    ensures TotalDelta(es[..n]) == Delta(es[0]) + TotalDelta(es[1..][..n - 1])
  {
    assert es[..n][1..] == es[1..][..n - 1];
  }

  /* ---------------------------------------------------------------- text put behind the opening brace */

  lemma {:induction false} ApplySplit<T>(s: seq<T>, es: seq<Edit<T>>, n: nat)
    requires n <= |es|
    ensures ApplyAll(s, es) == ApplyAll(ApplyAll(s, es[n..]), es[..n])
    decreases n
  {
    hide Splice;
    if n == 0 {
      assert es[0..] == es && es[..0] == [];
    } else {
      ApplySplit(s, es[1..], n - 1);
      assert es[1..][n - 1..] == es[n..];
      assert es[..n][1..] == es[1..][..n - 1];
    }
  }

  lemma AscendingSlices<T>(es: seq<Edit<T>>, size: nat, n: nat)
    requires Ascending(es, size) && n <= |es|
    ensures Ascending(es[n..], size) && Ascending(es[..n], StartOr(es, n, size))
  {
    forall m | 0 <= m < |es[n..]|
      ensures es[n..][m].start <= es[n..][m].end <= StartOr(es[n..], m + 1, size)
    {
      assert es[n..][m] == es[n + m];
      assert StartOr(es[n..], m + 1, size) == StartOr(es, n + m + 1, size);
    }
    forall m | 0 <= m < n
      ensures es[..n][m].start <= es[..n][m].end <= StartOr(es[..n], m + 1, StartOr(es, n, size))
    {
      assert es[..n][m] == es[m];
    }
  }

  lemma {:induction false} EndsBefore<T>(es: seq<Edit<T>>, size: nat, m: nat)
    requires Ascending(es, size) && m < |es|
    ensures es[m].end <= size
    decreases |es| - m
  {
    if m + 1 < |es| {
      EndsBefore(es, size, m + 1);
    }
  }

  /** The later edits leave the earlier ones as they are. */
  lemma EarlierStillMatch(text: string, es: seq<Edit<char>>, xs: seq<Edit<Event>>, n: nat)
    requires AllMatch(text, es, xs) && BlankEnds(text, es) && n <= |es|
    ensures AllMatch(text, es[n..], xs[n..])
    ensures var t := ApplyAll(text, es[n..]); AllMatch(t, es[..n], xs[..n]) && BlankEnds(t, es[..n])
  {
    hide At, Matches, ApplyAll, Splice, Blank, Ascending;
    AscendingSlices(es, |text|, n);
    assert AllMatch(text, es[n..], xs[n..]) by {
      assert forall m :: 0 <= m < |es| - n ==> es[n..][m] == es[n + m] && xs[n..][m] == xs[n + m];
    }
    var lim := StartOr(es, n, |text|);
    StartWithin(es, |text|, n);
    assert StartOr(es[n..], 0, |text|) == lim;
    ApplyKeepsPrefix(text, es[n..], lim);
    var t := ApplyAll(text, es[n..]);
    AscendingWithin(es[..n], lim, |t|);
    forall m | 0 <= m < n
      ensures Matches(t, es[..n][m], xs[..n][m]) && es[..n][m].end <= |t| && Blank(At(t, es[..n][m].end).pending)
    {
      assert es[..n][m] == es[m] && xs[..n][m] == xs[m];
      EndsBefore(es[..n], lim, m);
      assert t[..es[m].end] == t[..lim][..es[m].end] == text[..es[m].end];
      FitsInPrefix(text, t, es[m], xs[m]);
    }
  }

  lemma StartWithin<T>(es: seq<Edit<T>>, size: nat, n: nat)
    requires Ascending(es, size) && n <= |es|
    ensures StartOr(es, n, size) <= size
  {
    if n < |es| {
      EndsBefore(es, size, n);
    }
  }

  lemma AscendingWithin<T>(es: seq<Edit<T>>, size: nat, more: nat)
    requires Ascending(es, size) && size <= more
    ensures Ascending(es, more)
  {
  }

  /** The text put directly behind an opening brace becomes the front of the body. */
  lemma BodyPut(text: string, e: Edit<char>, x: Edit<Event>, i: int, j: int, p: int, q: int)
    requires Matches(text, e, x) && Blank(At(text, e.end).pending) && BlockAt(text, i, j, p, q)
    requires e.start == e.end == p + 1
    ensures var t := Splice(text, e);
            && BlockAt(t, i, j + Delta(x), p, q + Delta(e)) && Body(t, p, q + Delta(e)) == e.put + Body(text, p, q)
  {
    hide At, Run, Blank;
    var t := Splice(text, e);
    assert t == text[..p + 1] + e.put + text[p + 1..];
    assert t[..p + 1] == text[..p + 1];
    SameBefore(text, t, p + 1, i, p);
    ShiftBehind(text, e, x, j, q);
    assert t[p + 1..q + |e.put|] == e.put + text[p + 1..q];
  }

  /** Edit `n` puts text behind the opening brace of the block; the edits before it lie before the block,
      those after it behind the block. */
  ghost predicate Opens(es: seq<Edit<char>>, xs: seq<Edit<Event>>, n: nat, i: int, j: int, p: int) {
    && n < |es| == |xs| && es[n].start == es[n].end == p + 1 && xs[n].start == xs[n].end == i + 1
    && (forall m :: 0 <= m < n ==> xs[m].end <= i) && (forall m :: n < m < |xs| ==> xs[m].start > j)
  }

  /** Edit `n` puts text behind the opening brace; the `n` edits before it move the block. */
  lemma GatedMoves(text: string, es: seq<Edit<char>>, xs: seq<Edit<Event>>, n: nat, i: int, j: int, p: int, q: int)
    requires AllMatch(text, es, xs) && BlankEnds(text, es) && Opens(es, xs, n, i, j, p) && BlockAt(text, i, j, p, q)
    ensures n < |es| == |xs|
    ensures var t, dx, dp := ApplyAll(text, es), TotalDelta(xs[..n]), TotalDelta(es[..n]);
            var c := q + dp + |es[n].put|;
            && BlockAt(t, i + dx, j + dx + |xs[n].put|, p + dp, c)
            && Body(t, p + dp, c) == es[n].put + Body(text, p, q)
  {
    hide *;
    OpensFront(es, xs, n, i, j, p);
    GatedFirst(text, es, xs, n, i, j, p, q);
    MovedMore(text, es, xs, n, i, j + |xs[n].put|, p, q + |es[n].put|);
  }

  lemma OpensFront(es: seq<Edit<char>>, xs: seq<Edit<Event>>, n: nat, i: int, j: int, p: int)
    requires Opens(es, xs, n, i, j, p)
    ensures n < |es| == |xs| && Around(xs[..n], n, i, j + |xs[n].put|)
  {
  }

  /** The rest of the edits, made after the later ones. */
  lemma MovedMore(text: string, es: seq<Edit<char>>, xs: seq<Edit<Event>>, n: nat, i: int, j: int, p: int, q: int)
    requires AllMatch(text, es, xs) && BlankEnds(text, es) && n <= |es| == |xs|
    requires Around(xs[..n], n, i, j) && BlockAt(ApplyAll(text, es[n..]), i, j, p, q)
    ensures var t, dx, dp := ApplyAll(text, es), TotalDelta(xs[..n]), TotalDelta(es[..n]);
            && BlockAt(t, i + dx, j + dx, p + dp, q + dp)
            && Body(t, p + dp, q + dp) == Body(ApplyAll(text, es[n..]), p, q)
  {
    hide ApplyAll, Body, BlockAt, TotalDelta, AllMatch, BlankEnds, Around;
    EarlierStillMatch(text, es, xs, n);
    BlockMoves(ApplyAll(text, es[n..]), es[..n], xs[..n], n, i, j, p, q);
    ApplySplit(text, es, n);
    assert xs[..n][..n] == xs[..n] && es[..n][..n] == es[..n];
  }

  lemma GatedFirst(text: string, es: seq<Edit<char>>, xs: seq<Edit<Event>>, n: nat, i: int, j: int, p: int, q: int)
    requires AllMatch(text, es, xs) && BlankEnds(text, es) && Opens(es, xs, n, i, j, p) && BlockAt(text, i, j, p, q)
    ensures var t := ApplyAll(text, es[n..]);
            && BlockAt(t, i, j + |xs[n].put|, p, q + |es[n].put|)
            && Body(t, p, q + |es[n].put|) == es[n].put + Body(text, p, q)
  {
    hide At, Matches, ApplyAll, Body, Splice, Blank, BlockAt, Ascending;
    EarlierStillMatch(text, es, xs, n);
    EndsTail(text, es, n);
    var fs, ys := es[n..], xs[n..];
    assert fs[0] == es[n] && ys[0] == xs[n];
    FirstStillFits(text, fs, ys);
    assert Around(ys[1..], 0, i, j) by {
      assert forall m :: 0 <= m < |ys| - 1 ==> ys[1..][m] == xs[n + 1 + m];
    }
    hide AllMatch, BlankEnds;
    BlockInFront(text, fs[1..], ys[1..], i, j, p, q);
    BodyPut(ApplyAll(text, fs[1..]), fs[0], ys[0], i, j, p, q);
  }

  lemma EndsTail(text: string, es: seq<Edit<char>>, n: nat)
    requires BlankEnds(text, es) && n <= |es|
    ensures BlankEnds(text, es[n..])
  {
    hide At, Blank;
    assert forall m :: 0 <= m < |es| - n ==> es[n..][m] == es[n + m];
  }

  /* ---------------------------------------------------------------- clean places */

  /** Event `k` stands at `p`, with nothing unfinished before it. */
  ghost predicate CleanEvent(text: string, k: int, p: int) {
    EventAt(text, k, p) && Blank(At(text, p).pending)
  }

  lemma CleanBehind(text: string, e: Edit<char>, x: Edit<Event>, k: int, p: int)
    requires Matches(text, e, x) && Blank(At(text, e.end).pending) && CleanEvent(text, k, p) && e.end <= p
    ensures CleanEvent(Splice(text, e), k + Delta(x), p + Delta(e))
  {
    hide At, Matches, Splice, Blank;
    AtShift(text, e, x, p);
    ShiftBehind(text, e, x, k, p);
  }

  ghost predicate CleanMoved(text: string, es: seq<Edit<char>>, xs: seq<Edit<Event>>, k: int, p: int) {
    && CleanEvent(ApplyAll(text, es), k + TotalDelta(xs), p + TotalDelta(es))
    && (es != [] ==> es[0].start <= p + TotalDelta(es))
  }

  predicate AllBefore(xs: seq<Edit<Event>>, k: int) { forall m :: 0 <= m < |xs| ==> xs[m].end <= k }

  /** All edits lie before the event; it moves, and stays clean. */
  lemma {:induction false} CleanMoves(text: string, es: seq<Edit<char>>, xs: seq<Edit<Event>>, k: int, p: int)
    requires AllMatch(text, es, xs) && BlankEnds(text, es) && CleanEvent(text, k, p) && AllBefore(xs, k)
    ensures CleanMoved(text, es, xs, k, p)
    decreases |es|
  {
    hide At, Matches, ApplyAll, Splice, Blank, BlankEnds, Delta;
    if es == [] {
      assert ApplyAll(text, es) == text by { NothingApplied(text); }
    } else {
      hide CleanMoved;
      CleanFirst(text, es, xs, k, p);
      FirstStillFits(text, es, xs);
      assert AllBefore(xs[1..], k) by {
        assert forall m :: 0 <= m < |xs| - 1 ==> xs[1..][m] == xs[m + 1];
      }
      hide AllMatch, AllBefore, CleanEvent;
      CleanMoves(text, es[1..], xs[1..], k, p);
      CleanStep(text, es, xs, k, p);
    }
  }

  lemma CleanStep(text: string, es: seq<Edit<char>>, xs: seq<Edit<Event>>, k: int, p: int)
    requires AllMatch(text, es, xs) && BlankEnds(text, es) && es != [] && xs != [] && es[0].end <= p
    requires CleanMoved(text, es[1..], xs[1..], k, p)
    ensures CleanMoved(text, es, xs, k, p)
  {
    hide ApplyAll, Splice, Blank, BlankEnds, Delta, CleanEvent, Matches, At, AllMatch;
    FirstStillFits(text, es, xs);
    var t, dx, dp := ApplyAll(text, es[1..]), TotalDelta(xs[1..]), TotalDelta(es[1..]);
    FirstEndBelow(text, es, xs, p, dp);
    SameCount(text, es, xs);
    CleanBehind(t, es[0], xs[0], k + dx, p + dp);
    StartAfterDelta(es[0], p + dp);
  }

  lemma SameCount(text: string, es: seq<Edit<char>>, xs: seq<Edit<Event>>)
    requires AllMatch(text, es, xs)
    ensures |es| == |xs|
  {
  }

  lemma NothingApplied<T>(s: seq<T>)
    ensures ApplyAll(s, []) == s
  {
  }

  lemma CleanFirst(text: string, es: seq<Edit<char>>, xs: seq<Edit<Event>>, k: int, p: int)
    requires AllMatch(text, es, xs) && es != [] && EventAt(text, k, p) && xs[0].end <= k
    ensures es[0].end <= p
  {
    hide At;
    assert Matches(text, es[0], xs[0]);
    hide Matches;
    EditSide(text, es[0], xs[0], k, p);
  }

  lemma FirstEndBelow(text: string, es: seq<Edit<char>>, xs: seq<Edit<Event>>, p: int, dp: int)
    requires AllMatch(text, es, xs) && es != [] && es[0].end <= p
    requires dp == TotalDelta(es[1..]) && (es[1..] != [] ==> es[1..][0].start <= p + dp)
    ensures es[0].end <= p + dp && es[0].start <= es[0].end
  {
    hide Matches;
    if |es| == 1 {
      assert es[1..] == [];
    } else {
      assert es[0].end <= StartOr(es, 1, |text|);
    }
  }

  lemma StartAfterDelta(e: Edit<char>, p: int)
    requires e.start <= e.end <= p
    ensures e.start <= p + Delta(e)
  {
  }
}
