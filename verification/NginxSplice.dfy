/** Replacing pieces of the text, and what that does to the event stream. */
module NginxSplice {
  import opened Text
  import opened NginxLexer
  import opened NginxEvents
  import opened NginxOffsets

  /** Replace the elements from `start` up to `end` by `put`. */
  datatype Edit<T> = Edit(start: nat, end: nat, put: seq<T>)

  /** Python slices stop at the end of the sequence. */
  function Take<T>(s: seq<T>, n: nat): seq<T> { if n <= |s| then s[..n] else s }

  function Drop<T>(s: seq<T>, n: nat): seq<T> { if n <= |s| then s[n..] else [] }

  function Splice<T>(s: seq<T>, e: Edit<T>): seq<T> {
    Take(s, e.start) + e.put + Drop(s, e.end)
  }

  /** The edits listed by ascending position, made from the last to the first. */
  function ApplyAll<T>(s: seq<T>, edits: seq<Edit<T>>): seq<T> {
    if edits == [] then s else Splice(ApplyAll(s, edits[1..]), edits[0])
  }

  function StartOr<T>(edits: seq<Edit<T>>, i: nat, size: nat): nat {
    if i < |edits| then edits[i].start else size
  }

  predicate Ascending<T>(edits: seq<Edit<T>>, size: nat) {
    forall i :: 0 <= i < |edits| ==> edits[i].start <= edits[i].end <= StartOr(edits, i + 1, size)
  }

  /** The loop of rewrite_direct_v1 and add_missing_cloudflare_location_gates:
      `for start, end, replacement in sorted(edits, reverse=True)`. */
  method ApplyDescending<T>(s: seq<T>, edits: seq<Edit<T>>) returns (r: seq<T>)
    ensures r == ApplyAll(s, edits)
  {
    r := s;
    var i := |edits|;
    while i > 0
      invariant 0 <= i <= |edits|
      invariant r == ApplyAll(s, edits[i..])
    {
      i := i - 1;
      var e := edits[i];
      assert edits[i..][1..] == edits[i + 1..];
      r := Take(r, e.start) + e.put + Drop(r, e.end);
    }
    assert edits[0..] == edits;
  }

  lemma SpliceKeepsPrefix<T>(t: seq<T>, e: Edit<T>, n: nat)
    requires n <= e.start <= |t|
    ensures n <= |Splice(t, e)| && Splice(t, e)[..n] == t[..n]
  {
  }

  lemma ShorterPrefix<T>(s: seq<T>, t: seq<T>, n: nat, m: nat)
    requires n <= m <= |s| && m <= |t| && s[..m] == t[..m]
    ensures s[..n] == t[..n]
  {
    assert s[..n] == s[..m][..n];
    assert t[..n] == t[..m][..n];
  }

  lemma {:induction false} ApplyKeepsPrefix<T>(s: seq<T>, edits: seq<Edit<T>>, n: nat)
    requires Ascending(edits, |s|) && n <= StartOr(edits, 0, |s|)
    ensures n <= |s| && n <= |ApplyAll(s, edits)| && ApplyAll(s, edits)[..n] == s[..n]
  {
    hide Splice, Ascending;
    if edits != [] {
      AscendingTail(edits, |s|);
      ApplyKeepsPrefix(s, edits[1..], edits[0].end);
      var t := ApplyAll(s, edits[1..]);
      SpliceKeepsPrefix(t, edits[0], n);
      ShorterPrefix(s, t, n, edits[0].end);
    }
  }

  lemma TailStart<T>(edits: seq<Edit<T>>, i: nat, size: nat)
    requires edits != []
    ensures StartOr(edits[1..], i, size) == StartOr(edits, i + 1, size)
  {
  }

  lemma AscendingTail<T>(edits: seq<Edit<T>>, size: nat)
    requires edits != [] && Ascending(edits, size)
    ensures Ascending(edits[1..], size)
    ensures edits[0].start <= edits[0].end <= StartOr(edits[1..], 0, size)
  {
    TailStart(edits, 0, size);
    var tail := edits[1..];
    forall i | 0 <= i < |tail|
      ensures tail[i].start <= tail[i].end <= StartOr(tail, i + 1, size)
    {
      TailStart(edits, i + 1, size);
      assert tail[i] == edits[i + 1];
    }
  }

  /** All edits at once: the kept pieces in order with the replacements between them. */
  function Simultaneous<T>(s: seq<T>, from: nat, edits: seq<Edit<T>>): seq<T>
    decreases |edits|
  {
    if edits == [] then Drop(s, from)
    else Drop(Take(s, edits[0].start), from) + edits[0].put + Simultaneous(s, edits[0].end, edits[1..])
  }

  /** Editing one by one from the end never disturbs an earlier offset: it is one simultaneous edit. */
  lemma {:induction false} DescendingIsSimultaneous<T>(s: seq<T>, edits: seq<Edit<T>>, n: nat)
    requires Ascending(edits, |s|) && n <= StartOr(edits, 0, |s|)
    ensures Drop(ApplyAll(s, edits), n) == Simultaneous(s, n, edits)
  {
    if edits != [] {
      AscendingTail(edits, |s|);
      var e := edits[0];
      DescendingIsSimultaneous(s, edits[1..], e.end);
      ApplyKeepsPrefix(s, edits[1..], e.end);
      var t := ApplyAll(s, edits[1..]);
      ShorterPrefix(s, t, e.start, e.end);
      DropSplice(t[..e.start], e.put, t[e.end..], n);
    }
  }

  lemma DropSplice<T>(a: seq<T>, b: seq<T>, c: seq<T>, n: nat)
    requires n <= |a|
    ensures (a + b + c)[n..] == a[n..] + b + c
  {
  }

  /* ---------------------------------------------------------------- events of an edited text */

  /** Two unfinished statements from which the rest of the text is read alike. */
  predicate Resumes(p: string, rest: string) {
    Blank(p) || (rest != "" && rest[0] == '}')
  }

  lemma Resume(p: string, q: string, rest: string)
    requires Blank(p) && Resumes(q, rest)
    ensures var a, b := Run(Machine(Code, p, []), rest), Run(Machine(Code, q, []), rest);
            a.lex == b.lex && a.out == b.out && (Blank(a.pending) <==> Blank(b.pending))
  {
    hide IsSpace, Trim;
    if Blank(q) {
      ResumeBlank(p, rest);
      ResumeBlank(q, rest);
    } else {
      assert rest == [rest[0]] + rest[1..];
      RunConcat(Machine(Code, p, []), [rest[0]], rest[1..]);
      RunConcat(Machine(Code, q, []), [rest[0]], rest[1..]);
      CloseForgets(p);
      CloseForgets(q);
    }
  }

  /** A closing brace drops whatever was unfinished before it. */
  lemma CloseForgets(p: string)
    ensures Run(Machine(Code, p, []), "}") == Machine(Code, "", [Close])
  {
    assert "}"[..0] == "";
    assert Run(Machine(Code, p, []), "") == Machine(Code, p, []);
  }

  lemma ResumeBlank(p: string, rest: string)
    requires Blank(p)
    ensures var a, b := Run(Machine(Code, p, []), rest), Run(Machine(Code, "", []), rest);
            a.lex == b.lex && a.out == b.out && (Blank(a.pending) <==> Blank(b.pending))
  {
    hide IsSpace, Run;
    var m := Machine(Code, "", []);
    assert m.(pending := p + m.pending) == Machine(Code, p, []) by { assert p + "" == p; }
    RunBlankPending(Machine(Code, p, []), m, p, rest);
    BlankConcat(p, Run(m, rest).pending);
  }

  /** One replacement between plain-code positions edits the event stream at the matching place. */
  lemma SpliceEvents(text: string, e: Edit<char>, x: Edit<Event>)
    requires Matches(text, e, x)
    ensures var t := Run(INIT, Splice(text, e));
            && t.out == Splice(Run(INIT, text).out, x)
            && t.lex == Run(INIT, text).lex
            && (Blank(t.pending) <==> Blank(Run(INIT, text).pending))
  {
    hide Run, Blank;
    var a, rest := text[..e.start], text[e.end..];
    var ms, me := At(text, e.start), At(text, e.end);
    var mr := Run(Machine(Code, ms.pending, []), e.put);
    // the original text
    assert text == text[..e.end] + rest;
    RunConcat(INIT, text[..e.end], rest);
    RunShift(me, rest);
    // the edited text
    RunConcat(INIT, a, e.put);
    RunConcat(INIT, a + e.put, rest);
    RunShift(ms, e.put);
    RunShift(Run(ms, e.put), rest);
    Resume(mr.pending, me.pending, rest);
    var tail := Run(Machine(Code, me.pending, []), rest).out;
    OutIsPrefix(text, e.start, e.end);
    assert Run(INIT, text).out == me.out + tail;
    assert (me.out + tail)[..x.start] == ms.out && (me.out + tail)[x.end..] == tail;
  }

  lemma OutIsPrefix(text: string, p: nat, q: nat)
    requires p <= q <= |text|
    ensures At(text, p).out <= At(text, q).out
  {
    hide Run;
    assert text[..q] == text[..p] + text[p..q];
    RunConcat(INIT, text[..p], text[p..q]);
    RunShift(At(text, p), text[p..q]);
  }

  /** The edit of the text and the edit of the events speak of the same place and the same content. */
  ghost predicate Matches(text: string, e: Edit<char>, x: Edit<Event>) {
    && e.start <= e.end <= |text|
    && At(text, e.start).lex == Code && |At(text, e.start).out| == x.start
    && At(text, e.end).lex == Code && |At(text, e.end).out| == x.end
    && Resumes(At(text, e.end).pending, text[e.end..])
    && var r := Run(Machine(Code, At(text, e.start).pending, []), e.put);
       r.lex == Code && Blank(r.pending) && r.out == x.put
  }

  ghost predicate AllMatch(text: string, es: seq<Edit<char>>, xs: seq<Edit<Event>>) {
    && |es| == |xs| && Ascending(es, |text|)
    && (forall i :: 0 <= i < |es| ==> Matches(text, es[i], xs[i]))
    && (forall i :: 0 <= i < |es| - 1 ==> Blank(At(text, es[i].end).pending))
  }

  /** The text edit and the event edit commute. */
  lemma {:induction false} EditsCommute(text: string, es: seq<Edit<char>>, xs: seq<Edit<Event>>)
    requires AllMatch(text, es, xs)
    ensures var t := Run(INIT, ApplyAll(text, es));
            && t.out == ApplyAll(Run(INIT, text).out, xs)
            && t.lex == Run(INIT, text).lex
            && (Blank(t.pending) <==> Blank(Run(INIT, text).pending))
  {
    hide Run, Blank, Matches, Splice;
    if es != [] {
      AscendingTail(es, |text|);
      AllMatchTail(text, es, xs);
      EditsCommute(text, es[1..], xs[1..]);
      var t := ApplyAll(text, es[1..]);
      ApplyKeepsPrefix(text, es[1..], es[0].end);
      MatchesInPrefix(text, t, es[0], xs[0], |es| == 1);
      SpliceEvents(t, es[0], xs[0]);
    }
  }

  lemma AllMatchTail(text: string, es: seq<Edit<char>>, xs: seq<Edit<Event>>)
    requires AllMatch(text, es, xs) && es != []
    ensures AllMatch(text, es[1..], xs[1..])
  {
    hide Run, Blank, Matches, At;
    AscendingTail(es, |text|);
    assert forall i :: 0 <= i < |es| - 1 ==> es[1..][i] == es[i + 1] && xs[1..][i] == xs[i + 1];
  }

  lemma MatchesInPrefix(text: string, t: string, e: Edit<char>, x: Edit<Event>, last: bool)
    requires Matches(text, e, x)
    requires e.end <= |t| && t[..e.end] == text[..e.end]
    requires last ==> t == text
    requires !last ==> Blank(At(text, e.end).pending)
    ensures Matches(t, e, x)
  {
    hide Run, Blank;
    assert t[..e.start] == t[..e.end][..e.start] == text[..e.start];
  }
}
