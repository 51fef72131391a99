/**
 * The chunked pull protocol by which a save-history job streams a session's
 * history to its destination. Each data request copies the next block of at
 * most `LinesPerRequest` lines after the job's cursor `lastLineFetched` (the
 * last line already sent, -1 before anything is sent) and advances the
 * cursor; a request that writes nothing ends the transfer.
 *
 * The decoders that render terminal lines as plain text or HTML are not
 * modelled: a chunk records which decoder rendered which line range.
 */
module ExportProtocol {
  import opened Types

  /** Number of history lines copied per data request. */
  const LinesPerRequest: int := 500

  /** The decoder a job renders its lines with. */
  datatype Decoder = PlainTextDecoder | HTMLDecoder

  /** One piece written into a request's data buffer. */
  datatype Piece =
    | Decoded(decoder: Decoder, first: int, last: int) // lines first..last, inclusive
    | Newline                                           // a single '\n'

  /** Everything one data request writes. */
  type Chunk = seq<Piece>

  /** The line indices first, first + 1, ..., last; empty when last < first. */
  function Range(first: int, last: int): (r: seq<int>)
    ensures |r| == if last < first then 0 else last - first + 1
    decreases last - first
  {
    if last < first then [] else [first] + Range(first + 1, last)
  }

  /** The k-th index of a range is first + k: each line once, in increasing order. */
  lemma {:induction false} RangeAt(first: int, last: int, k: nat)
    requires k < |Range(first, last)|
    ensures Range(first, last)[k] == first + k
    decreases last - first
  {
    if k > 0 {
      RangeAt(first + 1, last, k - 1);
    }
  }

  /** The history lines a chunk renders, in output order. */
  function LinesOf(c: Chunk): seq<int>
  {
    if c == [] then []
    else
      var head := match c[0]
        case Decoded(_, first, last) => Range(first, last)
        case Newline => [];
      head + LinesOf(c[1..])
  }

  /** The history lines a sequence of chunks renders, in output order. */
  function AllLines(cs: seq<Chunk>): seq<int>
  {
    if cs == [] then [] else LinesOf(cs[0]) + AllLines(cs[1..])
  }

  /** The decoders that rendered some piece of the chunk. */
  function DecodersOf(c: Chunk): set<Decoder>
  {
    if c == [] then {}
    else (if c[0].Decoded? then {c[0].decoder} else {}) + DecodersOf(c[1..])
  }

  /** The number of line separators in the chunk. */
  function Separators(c: Chunk): nat
  {
    if c == [] then 0 else (if c[0] == Newline then 1 else 0) + Separators(c[1..])
  }

  /** The last line a request copies: the smaller of a full block and the last line. */
  function CopyUpTo(lastLineFetched: int, sessionLines: int): (r: int)
    ensures r <= lastLineFetched + LinesPerRequest && r <= sessionLines - 1
    ensures r == lastLineFetched + LinesPerRequest || r == sessionLines - 1
  {
    if lastLineFetched + LinesPerRequest < sessionLines - 1
    then lastLineFetched + LinesPerRequest
    else sessionLines - 1
  }

  /** The cursor after a request, and what the request wrote. */
  datatype Reply = Reply(cursor: int, data: Chunk)

  /**
   * One data request for a job whose cursor is `lastLineFetched`, rendering
   * with `decoder`; `lines` is the current line count of the job's session,
   * or None when the session has been destroyed.
   */
  function Serve(decoder: Decoder, lastLineFetched: int, lines: Option<nat>): (r: Reply)
    requires lastLineFetched >= -1
    ensures r.cursor >= -1
    // a destroyed session: nothing is written and the cursor stays put
    ensures lines.None? ==> r == Reply(lastLineFetched, [])
    // an exhausted job: nothing is written and the cursor stays put
    ensures lines.Some? && lines.value - 1 == lastLineFetched ==> r == Reply(lastLineFetched, [])
    // otherwise exactly the lines after the old cursor up to the new one,
    // at most one block of them, followed by a line separator
    ensures lines.Some? && lines.value - 1 != lastLineFetched ==>
      && LinesOf(r.data) == Range(lastLineFetched + 1, r.cursor)
      && r.data != [] && r.data[|r.data| - 1] == Newline
      && r.cursor <= lastLineFetched + LinesPerRequest
      && r.cursor <= lines.value - 1
      && (r.cursor == lastLineFetched + LinesPerRequest || r.cursor == lines.value - 1)
    // every line is rendered with the job's own decoder, and a non-empty
    // chunk holds exactly one separator (its last piece)
    ensures DecodersOf(r.data) <= {decoder}
    ensures Separators(r.data) == (if r.data == [] then 0 else 1)
    // the cursor advances while lines remain beyond it
    ensures lines.Some? && lastLineFetched < lines.value - 1 ==> lastLineFetched < r.cursor
  {
    match lines
    case None => Reply(lastLineFetched, [])
    case Some(sessionLines) =>
      if sessionLines - 1 == lastLineFetched then Reply(lastLineFetched, [])
      else
        var copyUpToLine := CopyUpTo(lastLineFetched, sessionLines);
        var written := [Decoded(decoder, lastLineFetched + 1, copyUpToLine)];
        // the separator guard compares against the last line, which
        // copyUpToLine never exceeds, so the separator is always written
        var data := if copyUpToLine <= sessionLines - 1 then written + [Newline] else written;
        assert data[1..] == [Newline];
        assert LinesOf(data[1..]) == [] && DecodersOf(data[1..]) == {} && Separators(data[1..]) == 1 by {
          assert data[1..][1..] == [];
        }
        Reply(copyUpToLine, data)
  }

  /**
   * A request that writes something writes one rendering, with the job's
   * decoder, of the lines after the cursor up to the new cursor, then one
   * separator; this holds also when the history has shrunk below the cursor.
   */
  lemma ServeShape(decoder: Decoder, lastLineFetched: int, lines: Option<nat>)
    requires lastLineFetched >= -1
    ensures var r := Serve(decoder, lastLineFetched, lines);
      lines.Some? && lines.value - 1 != lastLineFetched ==>
        r.data == [Decoded(decoder, lastLineFetched + 1, r.cursor), Newline]
  {
  }

  /** Consecutive line ranges join into one. */
  lemma {:induction false} RangeAppend(a: int, b: int, c: int)
    requires a - 1 <= b <= c
    ensures Range(a, b) + Range(b + 1, c) == Range(a, c)
    decreases b - a
  {
    if b < a {
      assert Range(a, b) == [];
    } else {
      RangeAppend(a + 1, b, c);
    }
  }

  /**
   * A chunk delivering lines a..b followed by chunks delivering b+1..c
   * delivers a..c.
   */
  lemma JoinDeliveries(c: Chunk, cs: seq<Chunk>, a: int, b: int, last: int)
    requires a - 1 <= b <= last
    requires LinesOf(c) == Range(a, b)
    requires AllLines(cs) == Range(b + 1, last)
    ensures AllLines([c] + cs) == Range(a, last)
  {
    assert ([c] + cs)[1..] == cs;
    assert AllLines([c] + cs) == LinesOf(c) + AllLines(cs);
    RangeAppend(a, b, last);
  }

  /**
   * A run of requests whose first chunk delivers lines a..b and whose
   * remaining requests deliver b+1..last delivers a..last.
   */
  lemma StepJoin(drained: (int, seq<Chunk>), c: Chunk, rest: (int, seq<Chunk>), a: int, b: int, last: int)
    requires a - 1 <= b <= last
    requires drained == (rest.0, [c] + rest.1)
    requires LinesOf(c) == Range(a, b)
    requires AllLines(rest.1) == Range(b + 1, last) && rest.0 == last
    ensures AllLines(drained.1) == Range(a, last) && drained.0 == last
  {
    JoinDeliveries(c, rest.1, a, b, last);
  }

  /**
   * A session whose history holds n lines and does not change, drained by
   * repeated requests until one writes nothing: the final cursor and the
   * non-empty chunks, in order.
   */
  function Drain(decoder: Decoder, n: nat, lastLineFetched: int): (r: (int, seq<Chunk>))
    requires -1 <= lastLineFetched <= n - 1
    decreases n - 1 - lastLineFetched
  {
    var reply := Serve(decoder, lastLineFetched, Some(n));
    if reply.data == [] then (reply.cursor, [])
    else
      var rest := Drain(decoder, n, reply.cursor);
      (rest.0, [reply.data] + rest.1)
  }

  /**
   * On a live session whose history covers the cursor, one request moves the
   * cursor forward (or leaves it when nothing is left) without passing the
   * last line, and writes exactly the lines it moves over.
   */
  lemma ServeCovers(decoder: Decoder, lastLineFetched: int, n: nat)
    requires -1 <= lastLineFetched <= n - 1
    ensures var reply := Serve(decoder, lastLineFetched, Some(n));
      && lastLineFetched <= reply.cursor <= n - 1
      && LinesOf(reply.data) == Range(lastLineFetched + 1, reply.cursor)
      && (reply.data == [] <==> reply.cursor == lastLineFetched)
      && (reply.data == [] <==> lastLineFetched == n - 1)
  {
  }

  /**
   * While lines remain after the cursor, a drain writes one chunk covering
   * the lines up to the new cursor and carries on from there.
   */
  lemma DrainStep(decoder: Decoder, n: nat, lastLineFetched: int)
    requires -1 <= lastLineFetched < n - 1
    ensures var reply := Serve(decoder, lastLineFetched, Some(n));
      && lastLineFetched < reply.cursor <= n - 1
      && LinesOf(reply.data) == Range(lastLineFetched + 1, reply.cursor)
      && Drain(decoder, n, lastLineFetched)
         == (Drain(decoder, n, reply.cursor).0, [reply.data] + Drain(decoder, n, reply.cursor).1)
  {
    ServeCovers(decoder, lastLineFetched, n);
  }

  /**
   * A job whose cursor is on the last line is exhausted: a further request
   * writes nothing and changes nothing, and draining it sends no chunk.
   */
  lemma DrainEndsExhausted(decoder: Decoder, n: nat, lastLineFetched: int)
    requires lastLineFetched == n - 1
    ensures Serve(decoder, lastLineFetched, Some(n)) == Reply(lastLineFetched, [])
    ensures Drain(decoder, n, lastLineFetched) == (lastLineFetched, [])
  {
  }

  /**
   * Draining delivers every line after the cursor exactly once, in order,
   * and stops with the cursor on the last line.
   */
  lemma {:induction false} DrainDeliversRemainingLines(decoder: Decoder, n: nat, lastLineFetched: int)
    requires -1 <= lastLineFetched <= n - 1
    ensures AllLines(Drain(decoder, n, lastLineFetched).1) == Range(lastLineFetched + 1, n - 1)
    ensures Drain(decoder, n, lastLineFetched).0 == n - 1
    decreases n - 1 - lastLineFetched
  {
    var drained := Drain(decoder, n, lastLineFetched);
    if lastLineFetched == n - 1 {
      DrainEndsExhausted(decoder, n, lastLineFetched);
      assert drained == (n - 1, []);
      assert Range(n, n - 1) == [];
    } else {
      var reply := Serve(decoder, lastLineFetched, Some(n));
      DrainStep(decoder, n, lastLineFetched);
      var rest := Drain(decoder, n, reply.cursor);
      DrainDeliversRemainingLines(decoder, n, reply.cursor);
      StepJoin(drained, reply.data, rest, lastLineFetched + 1, reply.cursor, n - 1);
    }
  }

  /** Exporting a whole history of n lines delivers lines 0..n-1, once each, in order. */
  lemma ExportDeliversWholeHistory(decoder: Decoder, n: nat)
    ensures AllLines(Drain(decoder, n, -1).1) == Range(0, n - 1)
    ensures Drain(decoder, n, -1).0 == n - 1
  {
    DrainDeliversRemainingLines(decoder, n, -1);
  }

  /** Draining takes one non-empty request per started block of LinesPerRequest lines. */
  lemma {:induction false} DrainRequestCount(decoder: Decoder, n: nat, lastLineFetched: int)
    requires -1 <= lastLineFetched <= n - 1
    ensures |Drain(decoder, n, lastLineFetched).1|
         == (n - 1 - lastLineFetched + LinesPerRequest - 1) / LinesPerRequest
    decreases n - 1 - lastLineFetched
  {
    var reply := Serve(decoder, lastLineFetched, Some(n));
    if reply.data != [] {
      DrainRequestCount(decoder, n, reply.cursor);
    }
  }

  /** A whole history of n lines is exported in ceil(n / LinesPerRequest) non-empty requests. */
  lemma ExportRequestCount(decoder: Decoder, n: nat)
    ensures |Drain(decoder, n, -1).1| == (n + LinesPerRequest - 1) / LinesPerRequest
  {
    DrainRequestCount(decoder, n, -1);
  }

  /**
   * Every chunk of a drain ends with a line separator, the last chunk
   * included, and holds no other separator; every line of it is rendered
   * with the job's decoder.
   */
  lemma {:induction false} DrainChunksEndWithNewline(decoder: Decoder, n: nat, lastLineFetched: int)
    requires -1 <= lastLineFetched <= n - 1
    ensures forall c :: c in Drain(decoder, n, lastLineFetched).1 ==> c != [] && c[|c| - 1] == Newline
    ensures forall c :: c in Drain(decoder, n, lastLineFetched).1 ==> DecodersOf(c) <= {decoder} && Separators(c) == 1
    decreases n - 1 - lastLineFetched
  {
    var reply := Serve(decoder, lastLineFetched, Some(n));
    if reply.data != [] {
      DrainChunksEndWithNewline(decoder, n, reply.cursor);
    }
  }

  /**
   * Requests served one after another for a live session whose line count
   * is observed as counts[i] at the i-th request: the final cursor and
   * every chunk written.
   */
  function Run(decoder: Decoder, lastLineFetched: int, counts: seq<nat>): (r: (int, seq<Chunk>))
    requires lastLineFetched >= -1
    decreases |counts|
  {
    if counts == [] then (lastLineFetched, [])
    else
      var reply := Serve(decoder, lastLineFetched, Some(counts[0]));
      var rest := Run(decoder, reply.cursor, counts[1..]);
      (rest.0, [reply.data] + rest.1)
  }

  /** The line count never decreases from one request to the next. */
  ghost predicate Growing(counts: seq<nat>)
  {
    forall i, j :: 0 <= i <= j < |counts| ==> counts[i] <= counts[j]
  }

  /**
   * While the history only grows (and already covers the cursor), a run of
   * requests never delivers a line twice and never skips one: together they
   * deliver exactly the lines after the starting cursor up to the final one,
   * in order, and the cursor never moves back or past the last line.
   */
  lemma {:induction false} RunDeliversContiguousLines(decoder: Decoder, lastLineFetched: int, counts: seq<nat>)
    requires lastLineFetched >= -1
    requires counts != [] ==> lastLineFetched < counts[0]
    requires Growing(counts)
    ensures lastLineFetched <= Run(decoder, lastLineFetched, counts).0
    ensures counts != [] ==> Run(decoder, lastLineFetched, counts).0 < counts[|counts| - 1]
    ensures AllLines(Run(decoder, lastLineFetched, counts).1)
         == Range(lastLineFetched + 1, Run(decoder, lastLineFetched, counts).0)
    decreases |counts|
  {
    if counts != [] {
      var reply := Serve(decoder, lastLineFetched, Some(counts[0]));
      ServeCovers(decoder, lastLineFetched, counts[0]);
      var rest := counts[1..];
      assert Growing(rest);
      assert rest != [] ==> reply.cursor < rest[0] by {
        if rest != [] { assert counts[0] <= counts[1]; }
      }
      RunDeliversContiguousLines(decoder, reply.cursor, rest);
      var final := Run(decoder, reply.cursor, rest);
      assert Run(decoder, lastLineFetched, counts) == (final.0, [reply.data] + final.1);
      JoinDeliveries(reply.data, final.1, lastLineFetched + 1, reply.cursor, final.0);
      if rest == [] {
        assert final.0 == reply.cursor;
      } else {
        assert counts[|counts| - 1] == rest[|rest| - 1];
      }
    }
  }
}
