/** read_line of deploy/locked-postgres-stream.py: newline-terminated lines out of a pipe that delivers
    its bytes in chunks of the operating system's choosing. */
module ControlLines {
  import opened Text

  const LF: Byte := 10
  const CR: Byte := 13

  /** MAX_CONTROL_OUTPUT_BYTES, and the size given to os.read. */
  const MAX := 64 * 1024
  const CHUNK := 4096

  /** What one read returns; an empty read is the end of the stream, at which the source raises. */
  type Chunk = b: Bytes | b != [] witness [0]

  predicate NoNewline(b: Bytes) { LF !in b }

  /** `bytearray.find(b"\n")`, None standing for -1. */
  function Find(b: Bytes): (r: Option<nat>)
    ensures r.None? <==> NoNewline(b)
    ensures r.Some? ==> r.value < |b| && b[r.value] == LF && NoNewline(b[..r.value])
  {
    if b == [] then None
    else if b[0] == LF then Some(0)
    else
      var i := Find(b[1..]);
      if i.None? then None
      else
        assert b[..i.value + 1] == [b[0]] + b[1..][..i.value];
        Some(i.value + 1)
  }

  function StripCr(line: Bytes): Bytes {
    if line != [] && line[|line| - 1] == CR then StripCr(line[..|line| - 1]) else line
  }

  /** `line.rstrip(b"\r")`: the carriage returns at the end go, and nothing else. */
  lemma {:induction false} StripCrIs(line: Bytes)
    ensures var r := StripCr(line);
            && |r| <= |line| && line[..|r|] == r && (r == [] || r[|r| - 1] != 13)
            && forall i :: |r| <= i < |line| ==> line[i] == 13
  {
    if line != [] && line[|line| - 1] == CR {
      StripCrIs(line[..|line| - 1]);
    }
  }

  /** What one call finds in the bytes received so far and the chunks still to come: None where the
      source raises, else the line, the buffer it leaves and the chunks it has not read. */
  function Read(buffer: Bytes, chunks: seq<Chunk>): Option<(Bytes, Bytes, seq<Chunk>)>
    decreases |chunks|
  {
    var newline := Find(buffer);
    if newline.Some? then Some((StripCr(buffer[..newline.value]), buffer[newline.value + 1..], chunks))
    else if |buffer| > MAX || chunks == [] then None
    else Read(buffer + chunks[0], chunks[1..])
  }

  /** The pipe of a process and the buffer kept for it. */
  class Reader {
    var buffer: Bytes
    var chunks: seq<Chunk>

    constructor (chunks: seq<Chunk>)
      ensures buffer == [] && this.chunks == chunks
    {
      buffer, this.chunks := [], chunks;
    }

    /** One call; after a failure the stream is not read again. */
    method ReadLine() returns (line: Option<Bytes>)
      modifies this
      ensures var r := Read(old(buffer), old(chunks));
              if r.None? then line == None
              else line == Some(r.value.0) && buffer == r.value.1 && chunks == r.value.2
    {
      while true
        invariant Read(buffer, chunks) == Read(old(buffer), old(chunks))
        decreases |chunks|
      {
        var newline := Find(buffer);
        if newline.Some? {
          var bytes := buffer[..newline.value];
          buffer := buffer[newline.value + 1..];
          return Some(StripCr(bytes));
        }
        if |buffer| > MAX || chunks == [] {
          return None;
        }
        buffer, chunks := buffer + chunks[0], chunks[1..];
      }
      return None;
    }
  }

  /* ---------------------------------------------------------------- the stream itself */

  function Concat(chunks: seq<Chunk>): Bytes {
    if chunks == [] then [] else chunks[0] + Concat(chunks[1..])
  }

  /** How many bytes are in the buffer after the first `k` chunks. */
  function Received(buffer: Bytes, chunks: seq<Chunk>, k: nat): nat
    requires k <= |chunks|
    decreases k
  {
    if k == 0 then |buffer| else Received(buffer + chunks[0], chunks[1..], k - 1)
  }

  lemma FindInPrefix(b: Bytes, more: Bytes)
    requires Find(b).Some?
    ensures Find(b + more) == Find(b)
  {
    var p := Find(b).value;
    assert (b + more)[..p] == b[..p];
    FirstNewline(b + more, p);
  }

  lemma {:induction false} FirstNewline(b: Bytes, p: nat)
    requires p < |b| && b[p] == LF && NoNewline(b[..p])
    ensures Find(b) == Some(p)
  {
    if p > 0 {
      assert b[..p][0] == b[0];
      assert b[1..][..p - 1] == b[..p][1..];
      FirstNewline(b[1..], p - 1);
    }
  }

  /** No chunk boundary before the newline at `p` finds more than MAX unterminated bytes. */
  ghost predicate Timely(buffer: Bytes, chunks: seq<Chunk>, p: nat) {
    forall k {:trigger Received(buffer, chunks, k)} ::
      0 <= k <= |chunks| && Received(buffer, chunks, k) <= p ==> Received(buffer, chunks, k) <= MAX
  }

  lemma {:induction false} ReceivedGrows(buffer: Bytes, chunks: seq<Chunk>, k: nat)
    requires k <= |chunks|
    ensures Received(buffer, chunks, k) >= |buffer|
    decreases k
  {
    if k > 0 {
      ReceivedGrows(buffer + chunks[0], chunks[1..], k - 1);
    }
  }

  lemma TimelyStep(buffer: Bytes, chunks: seq<Chunk>, p: nat)
    requires chunks != [] && |buffer| <= p
    ensures Timely(buffer, chunks, p) <==> |buffer| <= MAX && Timely(buffer + chunks[0], chunks[1..], p)
  {
    var b, cs := buffer + chunks[0], chunks[1..];
    assert Received(buffer, chunks, 0) == |buffer|;
    if |buffer| <= MAX && Timely(b, cs, p) {
      forall k | 0 <= k <= |chunks| && Received(buffer, chunks, k) <= p
        ensures Received(buffer, chunks, k) <= MAX
      {
        if k > 0 {
          assert Received(buffer, chunks, k) == Received(b, cs, k - 1);
        }
      }
    }
    if Timely(buffer, chunks, p) {
      forall k | 0 <= k <= |cs| && Received(b, cs, k) <= p
        ensures Received(b, cs, k) <= MAX
      {
        assert Received(buffer, chunks, k + 1) == Received(b, cs, k);
      }
    }
  }

  lemma ConcatStep(buffer: Bytes, chunks: seq<Chunk>)
    requires chunks != []
    ensures buffer + Concat(chunks) == (buffer + chunks[0]) + Concat(chunks[1..])
  {
  }

  /** A call succeeds exactly when the stream holds a newline and no chunk boundary before it leaves
      more than MAX unterminated bytes; the line and the unread bytes are then those of the stream. */
  lemma {:induction false} ReadIff(buffer: Bytes, chunks: seq<Chunk>)
    ensures var stream := buffer + Concat(chunks);
            var newline, r := Find(stream), Read(buffer, chunks);
            && (r.Some? <==> newline.Some? && Timely(buffer, chunks, newline.value))
            && (r.Some? ==> r.value.0 == StripCr(stream[..newline.value])
                            && r.value.1 + Concat(r.value.2) == stream[newline.value + 1..])
    decreases |chunks|
  {
    hide StripCr, Timely, Received;
    var stream := buffer + Concat(chunks);
    if Find(buffer).Some? {
      FindInPrefix(buffer, Concat(chunks));
      var p := Find(buffer).value;
      assert stream[..p] == buffer[..p];
      assert stream[p + 1..] == buffer[p + 1..] + Concat(chunks);
      BufferedIsTimely(buffer, chunks, p);
    } else if chunks == [] {
      assert stream == buffer;
    } else {
      ConcatStep(buffer, chunks);
      ReadIff(buffer + chunks[0], chunks[1..]);
      if Find(stream).Some? {
        NewlineBehind(buffer, stream);
        TimelyStep(buffer, chunks, Find(stream).value);
      }
    }
  }

  lemma BufferedIsTimely(buffer: Bytes, chunks: seq<Chunk>, p: nat)
    requires p < |buffer|
    ensures Timely(buffer, chunks, p)
  {
    forall k | 0 <= k <= |chunks|
      ensures Received(buffer, chunks, k) > p
    {
      ReceivedGrows(buffer, chunks, k);
    }
  }

  lemma NewlineBehind(buffer: Bytes, stream: Bytes)
    requires NoNewline(buffer) && buffer <= stream && Find(stream).Some?
    ensures |buffer| <= Find(stream).value
  {
    assert forall i :: 0 <= i < |buffer| ==> buffer[i] in buffer && stream[i] == buffer[i];
  }

  /** Lines of at most MAX bytes are read alike however the stream is cut. */
  lemma ShortLineIsRead(buffer: Bytes, chunks: seq<Chunk>)
    requires Find(buffer + Concat(chunks)).Some? && Find(buffer + Concat(chunks)).value <= MAX
    ensures Read(buffer, chunks).Some?
  {
    hide Find, StripCr;
    ReadIff(buffer, chunks);
  }

  predicate ChunksOfReads(chunks: seq<Chunk>) {
    forall i :: 0 <= i < |chunks| ==> |chunks[i]| <= CHUNK
  }

  /** Lines of MAX + CHUNK bytes or more are always refused: some boundary must fall behind MAX. */
  lemma LongLineIsRefused(chunks: seq<Chunk>)
    requires ChunksOfReads(chunks) && Find(Concat(chunks)).Some? && Find(Concat(chunks)).value >= MAX + CHUNK
    ensures Read([], chunks).None?
  {
    hide StripCr;
    assert [] + Concat(chunks) == Concat(chunks);
    ReadIff([], chunks);
    var p := Find(Concat(chunks)).value;
    var k := BoundaryBehind([], chunks, p);
  }

  /** The first boundary behind MAX. */
  lemma {:induction false} BoundaryBehind(buffer: Bytes, chunks: seq<Chunk>, p: nat) returns (k: nat)
    requires ChunksOfReads(chunks) && |buffer| <= MAX && MAX + CHUNK <= p < |buffer + Concat(chunks)|
    ensures k <= |chunks| && MAX < Received(buffer, chunks, k) <= p
    decreases |chunks|
  {
    if chunks == [] {
      assert false;
    }
    if |buffer + chunks[0]| > MAX {
      k := 1;
      assert Received(buffer, chunks, 1) == Received(buffer + chunks[0], chunks[1..], 0);
    } else {
      ConcatStep(buffer, chunks);
      assert ChunksOfReads(chunks[1..]) by {
        forall i | 0 <= i < |chunks[1..]|
          ensures |chunks[1..][i]| <= CHUNK
        {
          assert chunks[1..][i] == chunks[i + 1];
        }
      }
      k := BoundaryBehind(buffer + chunks[0], chunks[1..], p);
      k := k + 1;
    }
  }

  /** The reads of a stream whose bytes are all there. */
  function Pieces(b: Bytes): (chunks: seq<Chunk>)
    ensures ChunksOfReads(chunks) && Concat(chunks) == b
  {
    if b == [] then []
    else if |b| <= CHUNK then
      var only: Chunk := b;
      assert [only][1..] == [];
      [only]
    else
      var rest := Pieces(b[CHUNK..]);
      assert b == b[..CHUNK] + b[CHUNK..];
      [b[..CHUNK]] + rest
  }

  /** Up to MAX unterminated bytes are only collected. */
  lemma {:induction false} Collected(buffer: Bytes, chunks: seq<Chunk>, tail: seq<Chunk>)
    requires NoNewline(buffer + Concat(chunks)) && |buffer + Concat(chunks)| <= MAX
    ensures Read(buffer, chunks + tail) == Read(buffer + Concat(chunks), tail)
    decreases |chunks|
  {
    if chunks == [] {
      assert chunks + tail == tail && buffer + Concat(chunks) == buffer;
    } else {
      assert (chunks + tail)[1..] == chunks[1..] + tail;
      ConcatStep(buffer, chunks);
      assert forall i :: 0 <= i < |buffer| ==> (buffer + Concat(chunks))[i] == buffer[i];
      Collected(buffer + chunks[0], chunks[1..], tail);
    }
  }

  lemma {:induction false} ConcatOf(a: seq<Chunk>, b: seq<Chunk>)
    ensures Concat(a + b) == Concat(a) + Concat(b)
  {
    if a == [] {
      assert a + b == b;
    } else {
      assert (a + b)[1..] == a[1..] + b;
      ConcatOf(a[1..], b);
    }
  }

  /** In between, the cut decides: the same bytes are a line under one cut and a failure under another. */
  lemma CutDecides(line: Bytes) returns (one: seq<Chunk>, two: seq<Chunk>)
    requires NoNewline(line) && MAX < |line| < MAX + CHUNK
    ensures ChunksOfReads(one) && ChunksOfReads(two) && Concat(one) == Concat(two) == line + [LF]
    ensures Read([], one).Some? && Read([], two).None?
  {
    hide StripCr;
    var b, t := line[..MAX], line[MAX..];
    assert NoNewline(b) && b + t == line;
    var begin, last: Chunk, end: Chunk := Pieces(b), t + [LF], [LF];
    assert [] + Concat(begin) == b;
    var first: Chunk := t;
    one, two := begin + [last], begin + [first, end];
    LastChunks(t, last, end);
    ConcatOf(begin, [last]);
    ConcatOf(begin, [first, end]);
    Collected([], begin, [last]);
    Collected([], begin, [first, end]);
    hide Pieces, Concat;
    WholeOrSplit(b, first, last, end);
  }

  lemma LastChunks(first: Chunk, last: Chunk, end: Chunk)
    requires last == first + [LF] && end == [LF]
    ensures Concat([last]) == last == Concat([first, end])
  {
    assert [last][1..] == [] && [first, end][1..] == [end] && [end][1..] == [];
    assert Concat([end]) == [LF] + Concat([]) == [LF];
  }

  lemma WholeOrSplit(b: Bytes, first: Chunk, last: Chunk, end: Chunk)
    requires NoNewline(b + first) && |b| == MAX && last == first + [LF] && end == [LF]
    ensures Read(b, [last]).Some? && Read(b, [first, end]).None?
  {
    hide StripCr;
    assert forall i :: 0 <= i < |b| ==> (b + first)[i] == b[i];
    assert Find(b).None?;
    var whole := b + last;
    assert whole[|b + first|] == LF;
    assert Find(whole).Some?;
    assert [last][1..] == [] && [first, end][1..] == [end];
    assert Read(b, [last]) == Read(whole, []);
    assert Read(b, [first, end]) == Read(b + first, [end]);
  }

  /* ---------------------------------------------------------------- successive calls */

  /** The lines that `n` calls return, and what is left to read. */
  function ReadMany(buffer: Bytes, chunks: seq<Chunk>, n: nat): Option<(seq<Bytes>, Bytes)>
    decreases n
  {
    if n == 0 then Some(([], buffer + Concat(chunks)))
    else
      var r := Read(buffer, chunks);
      if r.None? then None
      else
        var more := ReadMany(r.value.1, r.value.2, n - 1);
        if more.None? then None else Some(([r.value.0] + more.value.0, more.value.1))
  }

  /** The first `n` newline-terminated lines of a byte string without their trailing carriage
      returns, and what follows them. */
  function Lines(stream: Bytes, n: nat): Option<(seq<Bytes>, Bytes)> {
    if n == 0 then Some(([], stream))
    else
      var newline := Find(stream);
      if newline.None? then None
      else
        var more := Lines(stream[newline.value + 1..], n - 1);
        if more.None? then None else Some(([StripCr(stream[..newline.value])] + more.value.0, more.value.1))
  }

  /** No line among the first `n` is longer than MAX. */
  predicate ShortLines(stream: Bytes, n: nat) {
    n == 0 ||
    var newline := Find(stream);
    newline.Some? ==> newline.value <= MAX && ShortLines(stream[newline.value + 1..], n - 1)
  }

  /** Successive calls return the lines of the whole stream, whatever the chunks. */
  lemma {:induction false} ReadManyIsLines(buffer: Bytes, chunks: seq<Chunk>, n: nat)
    requires ShortLines(buffer + Concat(chunks), n)
    ensures ReadMany(buffer, chunks, n) == Lines(buffer + Concat(chunks), n)
    decreases n
  {
    hide *;
    NoLine(buffer, chunks, n);
    if n > 0 {
      var stream := buffer + Concat(chunks);
      ReadIff(buffer, chunks);
      if Find(stream).Some? {
        ShortLinesBehind(stream, n);
        ShortLineIsRead(buffer, chunks);
        var r := Read(buffer, chunks).value;
        ReadManyIsLines(r.1, r.2, n - 1);
        FirstOfMany(buffer, chunks, n);
        FirstLine(stream, n);
      }
    }
  }

  lemma NoLine(buffer: Bytes, chunks: seq<Chunk>, n: nat)
    ensures n == 0 ==> ReadMany(buffer, chunks, n) == Lines(buffer + Concat(chunks), n)
    ensures n > 0 && Read(buffer, chunks).None? ==> ReadMany(buffer, chunks, n).None?
    ensures n > 0 && Find(buffer + Concat(chunks)).None? ==> Lines(buffer + Concat(chunks), n).None?
  {
    hide Read, Find, Concat, StripCr;
  }

  lemma ShortLinesBehind(stream: Bytes, n: nat)
    requires n > 0 && ShortLines(stream, n) && Find(stream).Some?
    ensures Find(stream).value <= MAX && ShortLines(stream[Find(stream).value + 1..], n - 1)
  {
    hide Find;
  }

  function Following(line: Bytes, more: Option<(seq<Bytes>, Bytes)>): Option<(seq<Bytes>, Bytes)> {
    if more.None? then None else Some(([line] + more.value.0, more.value.1))
  }

  lemma FirstOfMany(buffer: Bytes, chunks: seq<Chunk>, n: nat)
    requires n > 0 && Read(buffer, chunks).Some?
    ensures var r := Read(buffer, chunks).value;
            ReadMany(buffer, chunks, n) == Following(r.0, ReadMany(r.1, r.2, n - 1))
  {
    hide Read;
  }

  lemma FirstLine(stream: Bytes, n: nat)
    requires n > 0 && Find(stream).Some?
    ensures var p := Find(stream).value;
            Lines(stream, n) == Following(StripCr(stream[..p]), Lines(stream[p + 1..], n - 1))
  {
    hide Find, StripCr;
  }

  /** Two ways of cutting one stream cannot be told apart. */
  lemma ChunkingIsInvisible(a: seq<Chunk>, b: seq<Chunk>, n: nat)
    requires Concat(a) == Concat(b) && ShortLines(Concat(a), n)
    ensures ReadMany([], a, n) == ReadMany([], b, n)
  {
    assert [] + Concat(a) == Concat(a);
    ReadManyIsLines([], a, n);
    ReadManyIsLines([], b, n);
  }
}
