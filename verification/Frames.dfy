/** The Electrum session (apps/indexer/server.js): a frame assembler that resumes where it stopped
    scanning, on a connection that may be replaced under it. */
module Frames {
  import opened Common

  const NEWLINE: byte := 0x0a

  /** MAX_ELECTRUM_FRAME */
  const MAX_FRAME := 16 * 1024 * 1024

  function Flatten(chunks: seq<Bytes>): Bytes {
    if chunks == [] then [] else Flatten(chunks[..|chunks| - 1]) + chunks[|chunks| - 1]
  }

  predicate NoNewline(s: Bytes) {
    0x0a !in s
  }

  // ---- what splitting a stream on newline means ----

  /** The segments that a newline ends. */
  function Segments(s: Bytes): seq<Bytes>
    decreases |s|
  {
    if s == [] then []
    else
      var n := |s| - 1;
      if s[n] == NEWLINE then Segments(s[..n]) + [Tail(s[..n])] else Segments(s[..n])
  }

  /** What follows the last newline. */
  function Tail(s: Bytes): Bytes
    decreases |s|
  {
    if s == [] then []
    else
      var n := |s| - 1;
      if s[n] == NEWLINE then [] else Tail(s[..n]) + [s[n]]
  }

  /** Segments written back, each with its newline. */
  function Lines(segments: seq<Bytes>): Bytes {
    if segments == [] then []
    else Lines(segments[..|segments| - 1]) + segments[|segments| - 1] + [0x0a]
  }

  ghost predicate AllNoNewline(segments: seq<Bytes>) {
    forall i :: 0 <= i < |segments| ==> NoNewline(segments[i])
  }

  lemma {:induction false} SplitNoNewline(s: Bytes, t: Bytes)
    requires NoNewline(t)
    ensures Segments(s + t) == Segments(s) && Tail(s + t) == Tail(s) + t
    decreases |t|
  {
    if t == [] {
      assert s + t == s;
    } else {
      var n := |t| - 1;
      SplitNoNewline(s, t[..n]);
      assert (s + t)[..|s + t| - 1] == s + t[..n];
      assert t == t[..n] + [t[n]];
    }
  }

  lemma SplitNewline(s: Bytes)
    ensures Segments(s + [NEWLINE]) == Segments(s) + [Tail(s)] && Tail(s + [NEWLINE]) == []
  {
    assert (s + [NEWLINE])[..|s|] == s;
  }

  lemma {:induction false} SplitLines(segments: seq<Bytes>)
    requires AllNoNewline(segments)
    ensures Segments(Lines(segments)) == segments && Tail(Lines(segments)) == []
  {
    if segments != [] {
      var n := |segments| - 1;
      SplitLines(segments[..n]);
      OneMoreLine(segments[..n], segments[n]);
      assert segments == segments[..n] + [segments[n]];
    }
  }

  lemma OneMoreLine(front: seq<Bytes>, f: Bytes)
    requires NoNewline(f) && Segments(Lines(front)) == front && Tail(Lines(front)) == []
    ensures Segments(Lines(front + [f])) == front + [f] && Tail(Lines(front + [f])) == []
  {
    assert (front + [f])[..|front|] == front;
    SplitNoNewline(Lines(front), f);
    SplitNewline(Lines(front) + f);
    assert [] + f == f;
  }

  /** There is one way to read a stream as lines and an unfinished tail. */
  lemma SplitUnique(segments: seq<Bytes>, t: Bytes)
    requires AllNoNewline(segments) && NoNewline(t)
    ensures Segments(Lines(segments) + t) == segments && Tail(Lines(segments) + t) == t
  {
    SplitLines(segments);
    SplitNoNewline(Lines(segments), t);
  }

  lemma {:induction false} TailNoNewline(s: Bytes)
    ensures NoNewline(Tail(s))
    decreases |s|
  {
    if s != [] {
      TailNoNewline(s[..|s| - 1]);
    }
  }

  /** Splitting can stop anywhere and resume from the unfinished tail alone. */
  lemma {:induction false} SplitResumes(a: Bytes, b: Bytes)
    ensures Segments(a + b) == Segments(a) + Segments(Tail(a) + b) && Tail(a + b) == Tail(Tail(a) + b)
    decreases |b|
  {
    if b == [] {
      TailNoNewline(a);
      SplitNoNewline([], Tail(a));
      assert a + b == a && Tail(a) + b == Tail(a) == [] + Tail(a);
    } else {
      var n := |b| - 1;
      SplitResumes(a, b[..n]);
      assert (a + b)[..|a + b| - 1] == a + b[..n];
      assert (Tail(a) + b)[..|Tail(a) + b| - 1] == Tail(a) + b[..n];
    }
  }

  lemma {:induction false} LinesConcat(a: seq<Bytes>, b: seq<Bytes>)
    ensures Lines(a + b) == Lines(a) + Lines(b)
  {
    if b == [] {
      assert a + b == a;
    } else {
      var n := |b| - 1;
      assert (a + b)[..|a + b| - 1] == a + b[..n];
      LinesConcat(a, b[..n]);
    }
  }

  /** Lines in front of a stream are its first segments. */
  lemma LinesFirst(segments: seq<Bytes>, rest: Bytes)
    requires AllNoNewline(segments)
    ensures Segments(Lines(segments) + rest) == segments + Segments(rest) && Tail(Lines(segments) + rest) == Tail(rest)
  {
    SplitLines(segments);
    SplitResumes(Lines(segments), rest);
    assert [] + rest == rest;
  }

  // ---- what a line says ----

  /** What JSON makes of a line: nothing that answers a request (blank, malformed, or without an id), the id
      it answers, or the value null, whose `.id` throws. */
  datatype Parsed = Skip | Answers(id: nat) | JsonNull

  /** The first of these lines that is null, or how many there are. */
  function FirstNull(lines: seq<Bytes>, parse: Bytes -> Parsed): (k: nat)
    ensures k <= |lines| && (k < |lines| ==> parse(lines[k]) == JsonNull)
    ensures forall i :: 0 <= i < k ==> parse(lines[i]) != JsonNull
  {
    if lines == [] || parse(lines[0]) == JsonNull then 0 else 1 + FirstNull(lines[1..], parse)
  }

  predicate NoNulls(lines: seq<Bytes>, parse: Bytes -> Parsed) {
    forall i :: 0 <= i < |lines| ==> parse(lines[i]) != JsonNull
  }

  /** The last of these lines is null, and no other. */
  predicate NullLast(lines: seq<Bytes>, parse: Bytes -> Parsed) {
    lines != [] && NoNulls(lines[..|lines| - 1], parse) && parse(lines[|lines| - 1]) == JsonNull
  }

  lemma TakeNext(done: seq<Bytes>, line: Bytes, parse: Bytes -> Parsed)
    requires NoNulls(done, parse)
    ensures if parse(line) == JsonNull then NullLast(done + [line], parse) else NoNulls(done + [line], parse)
  {
    assert (done + [line])[..|done|] == done;
  }

  lemma AllTaken(lines: seq<Bytes>, done: seq<Bytes>, parse: Bytes -> Parsed)
    requires lines == done + [] && NoNulls(done, parse)
    ensures FirstNull(lines, parse) == |lines| && lines == done && lines[..|lines|] == done
  {
    assert lines == done;
    FirstNullIs(lines, parse, |lines|);
  }

  lemma StoppedAt(lines: seq<Bytes>, done: seq<Bytes>, line: Bytes, rest: seq<Bytes>, parse: Bytes -> Parsed)
    requires lines == done + [line] + rest && NoNulls(done, parse) && parse(line) == JsonNull
    ensures FirstNull(lines, parse) == |done| < |lines|
    ensures lines[..|done|] == done && lines[..|done| + 1] == done + [line]
  {
    FirstNullIs(lines, parse, |done|);
  }

  lemma {:induction false} FirstNullIs(lines: seq<Bytes>, parse: Bytes -> Parsed, k: nat)
    requires k <= |lines| && (k < |lines| ==> parse(lines[k]) == JsonNull)
    requires forall i :: 0 <= i < k ==> parse(lines[i]) != JsonNull
    ensures FirstNull(lines, parse) == k
  {
  }

  // ---- chunks ----

  lemma {:induction false} FlattenConcat(a: seq<Bytes>, b: seq<Bytes>)
    ensures Flatten(a + b) == Flatten(a) + Flatten(b)
  {
    if b == [] {
      assert a + b == a;
    } else {
      var n := |a + b| - 1;
      assert (a + b)[..n] == a + b[..|b| - 1];
      FlattenConcat(a, b[..|b| - 1]);
    }
  }

  lemma FlattenOne(x: Bytes)
    ensures Flatten([x]) == x
  {
    assert [x][..0] == [];
    assert Flatten([x]) == Flatten([x][..0]) + [x][0];
  }

  lemma FlattenNext(chunks: seq<Bytes>, i: nat)
    requires i < |chunks|
    ensures Flatten(chunks[..i + 1]) == Flatten(chunks[..i]) + chunks[i]
  {
    assert chunks[..i + 1][..i] == chunks[..i];
  }

  /** The bytes around position pos of chunk i. */
  lemma FlattenAround(chunks: seq<Bytes>, i: nat, pos: nat)
    requires i < |chunks| && pos < |chunks[i]|
    ensures Flatten(chunks) ==
            (Flatten(chunks[..i]) + chunks[i][..pos]) + [chunks[i][pos]] + (chunks[i][pos + 1..] + Flatten(chunks[i + 1..]))
  {
    assert chunks == chunks[..i + 1] + chunks[i + 1..];
    FlattenConcat(chunks[..i + 1], chunks[i + 1..]);
    FlattenNext(chunks, i);
    Around(Flatten(chunks[..i]), chunks[i], pos, Flatten(chunks[i + 1..]));
  }

  lemma Around(a: Bytes, c: Bytes, pos: nat, b: Bytes)
    requires pos < |c|
    ensures (a + c) + b == (a + c[..pos]) + [c[pos]] + (c[pos + 1..] + b)
  {
  }

  /** The chunks left when chunk i has been cut after position pos. */
  function Rest(chunks: seq<Bytes>, i: nat, pos: nat): seq<Bytes>
    requires i < |chunks| && pos < |chunks[i]|
  {
    var rest := chunks[i][pos + 1..];
    if |rest| > 0 then [rest] + chunks[i + 1..] else chunks[i + 1..]
  }

  lemma FlattenRest(chunks: seq<Bytes>, i: nat, pos: nat)
    requires i < |chunks| && pos < |chunks[i]|
    ensures Flatten(Rest(chunks, i, pos)) == chunks[i][pos + 1..] + Flatten(chunks[i + 1..])
  {
    var rest := chunks[i][pos + 1..];
    FlattenConcat([rest], chunks[i + 1..]);
    FlattenOne(rest);
  }

  /** Cutting a frame moves its bytes and its newline from the buffer to the lines. */
  lemma CutFrame(emitted: seq<Bytes>, chunks: seq<Bytes>, i: nat, pos: nat)
    requires i < |chunks| && pos < |chunks[i]| && chunks[i][pos] == NEWLINE
    ensures var f := Flatten(chunks[..i]) + chunks[i][..pos];
            && Lines(emitted) + Flatten(chunks) == Lines(emitted + [f]) + Flatten(Rest(chunks, i, pos))
            && |Flatten(chunks)| == |f| + 1 + |Flatten(Rest(chunks, i, pos))|
            && |Lines(emitted + [f])| == |Lines(emitted)| + |f| + 1
  {
    var f := Flatten(chunks[..i]) + chunks[i][..pos];
    FlattenAround(chunks, i, pos);
    FlattenRest(chunks, i, pos);
    assert (emitted + [f])[..|emitted|] == emitted;
    Regroup(Lines(emitted), f, Flatten(Rest(chunks, i, pos)));
  }

  lemma Regroup(a: Bytes, f: Bytes, b: Bytes)
    ensures a + (f + [NEWLINE] + b) == (a + f + [NEWLINE]) + b
  {
  }

  method FindNewline(c: Bytes) returns (p: int)
    ensures -1 <= p < |c|
    ensures p < 0 ==> NoNewline(c)
    ensures p >= 0 ==> c[p] == NEWLINE && NoNewline(c[..p])
  {
    p := 0;
    while p < |c| && c[p] != NEWLINE
      invariant 0 <= p <= |c| && NoNewline(c[..p])
    {
      p := p + 1;
    }
    assert c[..|c|] == c;
    if p == |c| {
      p := -1;
    }
  }

  // ---- the client ----

  class ElectrumClient {
    /** The live socket, by identity. */
    var sock: Option<nat>
    var nextId: nat
    var pending: set<nat>
    var chunks: seq<Bytes>
    var chunksLength: int
    var scanChunk: nat

    /** What this session's bytes were, the frames cut from them, and how many bytes indexOf has looked at. */
    ghost var received: Bytes
    ghost var emitted: seq<Bytes>
    ghost var searched: nat
    /** Requests answered, failed or timed out, in that order of events. */
    ghost var settled: seq<nat>

    ghost predicate Framed()
      reads `chunks, `chunksLength, `scanChunk, `received, `emitted, `searched
    {
      && scanChunk <= |chunks| && chunksLength == |Flatten(chunks)|
      && NoNewline(Flatten(chunks[..scanChunk])) && AllNoNewline(emitted)
      && received == Lines(emitted) + Flatten(chunks)
      && searched == |Lines(emitted)| + |Flatten(chunks[..scanChunk])|
    }

    /** Every request is pending or settled, and settled once. */
    ghost predicate Accounted()
      reads `nextId, `pending, `settled
    {
      && (forall id :: id in pending ==> id < nextId && id !in settled)
      && (forall id :: id in settled ==> id < nextId)
      && (forall i, j :: 0 <= i < j < |settled| ==> settled[i] != settled[j])
    }

    ghost predicate Valid()
      reads this
    {
      && Framed() && Accounted()
      && (sock == None ==> chunks == [] && received == [] && pending == {})
    }

    /** Everything received has been searched: so it is between events, unless a line threw. */
    ghost predicate Searched()
      reads `chunks, `scanChunk
    {
      scanChunk == |chunks|
    }

    constructor ()
      ensures Valid() && Searched() && sock == None && received == [] && emitted == [] && settled == []
    {
      sock, nextId, pending := None, 1, {};
      chunks, chunksLength, scanChunk := [], 0, 0;
      received, emitted, searched, settled := [], [], 0, [];
    }

    method ResetFrames()
      modifies `chunks, `chunksLength, `scanChunk, `received, `emitted, `searched
      ensures Framed() && scanChunk == |chunks| && chunks == [] && received == [] && emitted == []
    {
      chunks, chunksLength, scanChunk := [], 0, 0;
      received, emitted, searched := [], [], 0;
    }

    /** The scan: resume at scanChunk; returns the chunk and position of the first newline, or none. */
    method Scan() returns (nlChunk: int, nlPos: int)
      requires Framed()
      modifies `scanChunk, `searched
      ensures nlChunk < 0 ==> Framed() && scanChunk == |chunks|
      ensures nlChunk >= 0 ==>
                && nlChunk == scanChunk < |chunks| && 0 <= nlPos < |chunks[nlChunk]| && chunks[nlChunk][nlPos] == NEWLINE
                && NoNewline(Flatten(chunks[..nlChunk]) + chunks[nlChunk][..nlPos])
                && searched == |Lines(emitted)| + |Flatten(chunks[..nlChunk])| + nlPos + 1
    {
      var i := scanChunk;
      while i < |chunks|
        invariant i == scanChunk && Framed()
      {
        var p := FindNewline(chunks[i]);
        FlattenNext(chunks, i);
        if p >= 0 {
          searched := searched + p + 1;
          return i, p;
        }
        searched := searched + |chunks[i]|;
        scanChunk := i + 1;
        i := i + 1;
      }
      nlChunk, nlPos := -1, -1;
    }

    /** One turn of the frame loop: the next completed frame, or none. */
    method NextFrame() returns (frame: Option<Bytes>)
      requires Framed()
      modifies `chunks, `chunksLength, `scanChunk, `emitted, `searched
      ensures Framed()
      ensures frame == None ==> scanChunk == |chunks| && emitted == old(emitted)
      ensures frame.Some? ==> emitted == old(emitted) + [frame.value] && |Flatten(chunks)| < |Flatten(old(chunks))|
    {
      var nlChunk, nlPos := Scan();
      if nlChunk < 0 {
        return None;
      }
      CutFrame(emitted, chunks, nlChunk, nlPos);
      var f := Flatten(chunks[..nlChunk]) + chunks[nlChunk][..nlPos];
      chunks := Rest(chunks, nlChunk, nlPos);
      chunksLength := chunksLength - (|f| + 1);
      scanChunk := 0;
      emitted := emitted + [f];
      frame := Some(f);
    }
  
    method SettleAll()
      requires Accounted()
      modifies `pending, `settled
      ensures Accounted() && pending == {} && old(settled) <= settled
      ensures forall id :: id in settled <==> id in old(settled) || id in old(pending)
    {
      while pending != {}
        invariant Accounted() && pending <= old(pending) && old(settled) <= settled
        invariant forall id :: id in settled <==> id in old(settled) || (id in old(pending) && id !in pending)
        decreases |pending|
      {
        var id :| id in pending;
        Settle(id);
      }
    }

    method Settle(id: nat)
      requires Accounted() && id in pending
      modifies `pending, `settled
      ensures Accounted() && pending == old(pending) - {id} && settled == old(settled) + [id]
    {
      pending := pending - {id};
      settled := settled + [id];
    }

    /** #onData. It throws exactly when one of the newline-ended lines now in the buffer is JSON null: then
        that line is the last one taken, the lines before it are answered, and the rest stays buffered. */
    method OnData(d: Bytes, parse: Bytes -> Parsed) returns (threw: bool)
      requires Valid() && sock.Some?
      modifies this
      ensures Valid() && old(settled) <= settled
      ensures |old(Flatten(chunks))| + |d| > 16_777_216 ==>
                && !threw && sock == None && pending == {} && chunks == [] && received == []
                && forall id :: id in old(pending) ==> id in settled
      ensures |old(Flatten(chunks))| + |d| <= 16_777_216 ==>
                var lines := Segments(old(Flatten(chunks)) + d);
                var k := FirstNull(lines, parse);
                && sock == old(sock) && received == old(received) + d && threw == (k < |lines|)
                && emitted == old(emitted) + (if threw then lines[..k + 1] else lines)
                && received == Lines(emitted) + Flatten(chunks)
                && pending == old(pending) - Answered(lines[..k], parse)
      ensures |old(Flatten(chunks))| + |d| <= 16_777_216 && !threw ==>
                && Searched() && emitted == Segments(received) && Flatten(chunks) == Tail(received) && searched == |received|
    {
      Append(d);
      if chunksLength > MAX_FRAME {
        Overflow();
        threw := false;
      } else {
        threw := TakeLines(parse);
      }
    }

    /** The frame loop, in terms of the lines in the buffer. */
    method TakeLines(parse: Bytes -> Parsed) returns (threw: bool)
      requires Framed() && Accounted()
      modifies `pending, `chunks, `chunksLength, `scanChunk, `emitted, `searched, `settled
      ensures Framed() && Accounted() && old(settled) <= settled
      ensures var lines := Segments(old(Flatten(chunks)));
              var k := FirstNull(lines, parse);
              && threw == (k < |lines|) && emitted == old(emitted) + (if threw then lines[..k + 1] else lines)
              && pending == old(pending) - Answered(lines[..k], parse)
      ensures !threw ==>
                Searched() && emitted == Segments(received) && Flatten(chunks) == Tail(received) && searched == |received|
    {
      ghost var first, buffered := emitted, Flatten(chunks);
      ghost var done;
      threw, done := DrainFrames(parse);
      Taken(first, buffered, done, threw, parse);
      if !threw {
        SplitNow();
      }
    }

    /** The frame limit was passed: every request fails and the socket is forgotten. */
    method Overflow()
      requires Accounted()
      modifies this
      ensures Valid() && old(settled) <= settled && sock == None && pending == {} && chunks == [] && received == []
      ensures forall id :: id in old(pending) ==> id in settled
    {
      ResetFrames();
      SettleAll();
      sock := None;
    }

    lemma SplitNow()
      requires Framed() && scanChunk == |chunks|
      ensures emitted == Segments(received) && Flatten(chunks) == Tail(received) && searched == |received|
    {
      assert chunks[..scanChunk] == chunks;
      SplitUnique(emitted, Flatten(chunks));
    }

    method Append(d: Bytes)
      requires Framed()
      modifies `chunks, `chunksLength, `received
      ensures Framed() && Flatten(chunks) == old(Flatten(chunks)) + d && received == old(received) + d
    {
      FlattenNextPush(chunks, d);
      assert (chunks + [d])[..scanChunk] == chunks[..scanChunk];
      chunks := chunks + [d];
      chunksLength := chunksLength + |d|;
      received := received + d;
    }

    /** What was buffered at first is the lines cut since and what is buffered now. */
    lemma Cut(first: seq<Bytes>, buffered: Bytes)
      requires Framed() && received == Lines(first) + buffered && first <= emitted
      ensures buffered == Lines(emitted[|first|..]) + Flatten(chunks)
      ensures Segments(buffered) == emitted[|first|..] + Segments(Flatten(chunks))
    {
      var since := emitted[|first|..];
      assert emitted == first + since;
      LinesConcat(first, since);
      assert received == Lines(first) + (Lines(since) + Flatten(chunks));
      assert buffered == received[|Lines(first)|..];
      LinesFirst(since, Flatten(chunks));
    }

    /** One turn of the loop: the next frame, if there is one, settles the request it answers, or throws. */
    method Turn(parse: Bytes -> Parsed) returns (frame: Option<Bytes>)
      requires Framed() && Accounted()
      modifies `pending, `chunks, `chunksLength, `scanChunk, `emitted, `searched, `settled
      ensures Framed() && Accounted() && old(settled) <= settled
      ensures frame == None ==> Searched() && emitted == old(emitted) && pending == old(pending)
      ensures frame.Some? ==>
                && emitted == old(emitted) + [frame.value] && |Flatten(chunks)| < |Flatten(old(chunks))|
                && pending == old(pending) - Answered([frame.value], parse)
    {
      frame := NextFrame();
      if frame.Some? {
        OneAnswered(frame.value, parse);
        var said := parse(frame.value);
        if said.Answers? && said.id in pending {
          Settle(said.id);
        }
      }
    }

    /** Nothing is left to take. */
    lemma Drained(first: seq<Bytes>, buffered: Bytes, done: seq<Bytes>, parse: Bytes -> Parsed)
      requires Framed() && Searched() && received == Lines(first) + buffered && emitted == first + done && NoNulls(done, parse)
      ensures var lines := Segments(buffered); FirstNull(lines, parse) == |lines| && lines == done && lines[..|lines|] == done
    {
      Cut(first, buffered);
      assert emitted[|first|..] == done;
      TailIsLast(Flatten(chunks), chunks, scanChunk);
      AllTaken(Segments(buffered), done, parse);
    }

    /** The frame just taken is null. */
    lemma Threw(first: seq<Bytes>, buffered: Bytes, done: seq<Bytes>, line: Bytes, parse: Bytes -> Parsed)
      requires Framed() && received == Lines(first) + buffered && emitted == first + done + [line] && NoNulls(done, parse)
      requires parse(line) == JsonNull
      ensures var lines := Segments(buffered);
              FirstNull(lines, parse) == |done| < |lines| && lines[..|done|] == done && lines[..|done| + 1] == done + [line]
    {
      assert first + done + [line] == first + (done + [line]);
      Cut(first, buffered);
      assert emitted[|first|..] == done + [line];
      StoppedAt(Segments(buffered), done, line, Segments(Flatten(chunks)), parse);
    }

    /** The frame loop: every completed frame is taken in turn; the first one that is null throws. `done`
        are the frames taken. */
    method DrainFrames(parse: Bytes -> Parsed) returns (threw: bool, ghost done: seq<Bytes>)
      requires Framed() && Accounted()
      modifies `pending, `chunks, `chunksLength, `scanChunk, `emitted, `searched, `settled
      ensures Framed() && Accounted() && old(settled) <= settled && emitted == old(emitted) + done
      ensures pending == old(pending) - Answered(done, parse)
      ensures !threw ==> Searched() && NoNulls(done, parse)
      ensures threw ==> NullLast(done, parse)
    {
      threw, done := false, [];
      while !threw
        invariant Framed() && Accounted() && old(settled) <= settled && emitted == old(emitted) + done
        invariant pending == old(pending) - Answered(done, parse)
        invariant if threw then NullLast(done, parse) else NoNulls(done, parse)
        decreases !threw, |Flatten(chunks)|
      {
        var frame := Turn(parse);
        if frame == None {
          return;
        }
        AnsweredNext(done, frame.value, parse);
        OneAnswered(frame.value, parse);
        TakeNext(done, frame.value, parse);
        done := done + [frame.value];
        threw := parse(frame.value) == JsonNull;
      }
    }

    /** The frames taken, read against the lines that were in the buffer. */
    lemma Taken(first: seq<Bytes>, buffered: Bytes, done: seq<Bytes>, threw: bool, parse: Bytes -> Parsed)
      requires Framed() && received == Lines(first) + buffered && emitted == first + done
      requires if threw then NullLast(done, parse) else Searched() && NoNulls(done, parse)
      ensures var lines := Segments(buffered);
              var k := FirstNull(lines, parse);
              && threw == (k < |lines|) && done == (if threw then lines[..k + 1] else lines)
              && Answered(done, parse) == Answered(lines[..k], parse)
    {
      if threw {
        var n := |done| - 1;
        assert emitted == first + done[..n] + [done[n]];
        Threw(first, buffered, done[..n], done[n], parse);
        AnsweredNext(done[..n], done[n], parse);
        assert done == done[..n] + [done[n]];
      } else {
        Drained(first, buffered, done, parse);
      }
    }

    /** The data listener of one socket: a socket that is no longer the client's is ignored. */
    method OnSocketData(from: nat, d: Bytes, parse: Bytes -> Parsed) returns (threw: bool)
      requires Valid()
      modifies this
      ensures Valid() && old(settled) <= settled
      ensures old(sock) != Some(from) ==>
                && !threw && sock == old(sock) && pending == old(pending) && chunks == old(chunks) && received == old(received)
                && emitted == old(emitted) && settled == old(settled)
      ensures old(sock) == Some(from) && |old(Flatten(chunks))| + |d| <= 16_777_216 ==>
                var lines := Segments(old(Flatten(chunks)) + d);
                && received == old(received) + d && threw == (FirstNull(lines, parse) < |lines|)
                && (!threw ==> emitted == Segments(received) && Flatten(chunks) == Tail(received))
    {
      threw := false;
      if sock == Some(from) {
        threw := OnData(d, parse);
      }
    }

    /** The error and close listeners of one socket. */
    method Fail(from: nat)
      requires Valid()
      modifies this
      ensures Valid() && old(settled) <= settled
      ensures old(sock) != Some(from) ==>
                && sock == old(sock) && pending == old(pending) && chunks == old(chunks) && received == old(received)
                && emitted == old(emitted) && settled == old(settled)
      ensures old(sock) == Some(from) ==>
                sock == None && pending == {} && received == [] && forall id :: id in old(pending) ==> id in settled
    {
      if sock != Some(from) {
        return;
      }
      sock := None;
      ResetFrames();
      SettleAll();
    }

    /** connect: a fresh socket, with nothing buffered from the last one. */
    method Connect(socket: nat)
      requires Valid()
      modifies `sock
      ensures Valid() && sock.Some? && (old(sock).Some? ==> sock == old(sock))
      ensures old(sock) == None ==> sock == Some(socket) && received == [] && pending == {}
    {
      if sock == None {
        sock := Some(socket);
      }
    }

    /** #send: a new request under a new id. */
    method Send() returns (id: nat)
      requires Valid() && sock.Some?
      modifies `nextId, `pending
      ensures Valid() && id == old(nextId) && id !in old(pending) && id !in settled && pending == old(pending) + {id}
    {
      id := nextId;
      nextId := nextId + 1;
      pending := pending + {id};
    }

    /** The fifteen-second timer of a request. */
    method Timeout(id: nat)
      requires Valid()
      modifies `pending, `settled
      ensures Valid() && pending == old(pending) - {id}
      ensures settled == if id in old(pending) then old(settled) + [id] else old(settled)
    {
      if id in pending {
        Settle(id);
      }
    }
  }

  function Answered(frames: seq<Bytes>, parse: Bytes -> Parsed): set<nat> {
    if frames == [] then {}
    else
      var n := |frames| - 1;
      var said := parse(frames[n]);
      Answered(frames[..n], parse) + if said.Answers? then {said.id} else {}
  }

  lemma AnsweredNext(frames: seq<Bytes>, frame: Bytes, parse: Bytes -> Parsed)
    ensures Answered(frames + [frame], parse)
            == Answered(frames, parse) + if parse(frame).Answers? then {parse(frame).id} else {}
  {
    assert (frames + [frame])[..|frames|] == frames;
  }

  lemma OneAnswered(frame: Bytes, parse: Bytes -> Parsed)
    ensures Answered([frame], parse) == if parse(frame).Answers? then {parse(frame).id} else {}
  {
    AnsweredNext([], frame, parse);
    assert [] + [frame] == [frame];
  }

  /** A buffer searched to its end has no line in it. */
  lemma TailIsLast(b: Bytes, chunks: seq<Bytes>, scanChunk: nat)
    requires b == Flatten(chunks) && scanChunk == |chunks| && NoNewline(Flatten(chunks[..scanChunk]))
    ensures Segments(b) == []
  {
    assert chunks[..scanChunk] == chunks;
    SplitNoNewline([], b);
    assert [] + b == b;
  }

  lemma FlattenNextPush(chunks: seq<Bytes>, d: Bytes)
    ensures Flatten(chunks + [d]) == Flatten(chunks) + d
  {
    assert (chunks + [d])[..|chunks|] == chunks;
  }
}
