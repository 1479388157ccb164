/**
 Copying a chunked request body upstream (section 7.1 of RFC 9112) without changing a byte and without
 reading past its end. What a size line means is left to a parser, `chunkSize`. All positions are
 positions in the whole stream.
 */
module ChunkedRelay {
  import opened Options
  import opened Bytes

  const MAX_LINE: nat := 4096

  type SizeParser = seq<Byte> -> Option<nat>

  // ----- chunked bodies as values ------------------------------------------------------------------

  predicate IsLine(line: seq<Byte>) {
    && 0 < |line| <= MAX_LINE && line[|line| - 1] == LF
    && forall i :: 0 <= i < |line| - 1 ==> line[i] != LF
  }

  datatype Chunk = Chunk(size: seq<Byte>, data: seq<Byte>)

  datatype Body = Body(chunks: seq<Chunk>, last: seq<Byte>, trailers: seq<seq<Byte>>)

  predicate WellFormedChunk(chunkSize: SizeParser, chunk: Chunk) {
    IsLine(chunk.size) && chunkSize(chunk.size) == Some(|chunk.data|) && |chunk.data| > 0
  }

  predicate WellFormedTrailer(trailer: seq<Byte>) {
    IsLine(trailer) && trailer != CRLF
  }

  predicate WellFormed(chunkSize: SizeParser, body: Body) {
    && (forall chunk :: chunk in body.chunks ==> WellFormedChunk(chunkSize, chunk))
    && IsLine(body.last) && chunkSize(body.last) == Some(0)
    && forall trailer :: trailer in body.trailers ==> WellFormedTrailer(trailer)
  }

  function EncodeChunk(chunk: Chunk): seq<Byte> {
    chunk.size + chunk.data + CRLF
  }

  function EncodeChunks(chunks: seq<Chunk>): seq<Byte> {
    if chunks == [] then [] else EncodeChunk(chunks[0]) + EncodeChunks(chunks[1..])
  }

  function Encode(body: Body): seq<Byte> {
    EncodeChunks(body.chunks) + body.last + Concat(body.trailers) + CRLF
  }

  /** `part` stands at position `pos` of the stream. */
  predicate At(stream: seq<Byte>, pos: nat, part: seq<Byte>) {
    pos + |part| <= |stream| && stream[pos..pos + |part|] == part
  }

  lemma AtSplits(stream: seq<Byte>, pos: nat, a: seq<Byte>, b: seq<Byte>)
    ensures At(stream, pos, a + b) <==> At(stream, pos, a) && At(stream, pos + |a|, b)
  {
    if pos + |a| + |b| <= |stream| {
      var whole := stream[pos..pos + |a + b|];
      assert whole[..|a|] == stream[pos..pos + |a|] && whole[|a|..] == stream[pos + |a|..pos + |a| + |b|];
      assert whole == whole[..|a|] + whole[|a|..];
      assert (a + b)[..|a|] == a && (a + b)[|a|..] == b;
    }
  }

  // ----- where a body ends -------------------------------------------------------------------------

  /** The end of the line at `pos`, provided nothing before `from` ends it. */
  function LineFrom(stream: seq<Byte>, pos: nat, from: nat): (end: Option<nat>)
    requires pos <= from <= |stream|
    ensures end.Some? ==> from < end.value <= |stream|
    decreases |stream| - from
  {
    if from == |stream| || from >= pos + MAX_LINE then None
    else if stream[from] == LF then Some(from + 1)
    else LineFrom(stream, pos, from + 1)
  }

  function LineEnd(stream: seq<Byte>, pos: nat): (end: Option<nat>)
    requires pos <= |stream|
    ensures end.Some? ==> pos < end.value <= |stream|
  {
    LineFrom(stream, pos, pos)
  }

  datatype Piece = Broken | Final(end: nat) | Whole(end: nat)

  predicate ClosedAt(stream: seq<Byte>, pos: nat)
    requires pos <= |stream|
  {
    var end := LineEnd(stream, pos);
    end.Some? && stream[pos..end.value] == CRLF
  }

  /** What stands at `pos`: a whole chunk, the line that ends the chunks, or neither. */
  function PieceAt(chunkSize: SizeParser, stream: seq<Byte>, pos: nat): (piece: Piece)
    requires pos <= |stream|
    ensures !piece.Broken? ==> pos < piece.end <= |stream|
  {
    var line := LineEnd(stream, pos);
    if line.None? then Broken
    else
      var size := chunkSize(stream[pos..line.value]);
      if size.None? then Broken
      else if size.value == 0 then Final(line.value)
      else if |stream| < line.value + size.value then Broken
      else if !ClosedAt(stream, line.value + size.value) then Broken
      else Whole(line.value + size.value + |CRLF|)
  }

  function TrailersEnd(stream: seq<Byte>, pos: nat): (end: Option<nat>)
    requires pos <= |stream|
    ensures end.Some? ==> pos < end.value <= |stream|
    decreases |stream| - pos
  {
    var line := LineEnd(stream, pos);
    if line.None? || stream[pos..line.value] == CRLF then line else TrailersEnd(stream, line.value)
  }

  /** Where the body that starts at `pos` ends, if a whole one is there. */
  function BodyEnd(chunkSize: SizeParser, stream: seq<Byte>, pos: nat): (end: Option<nat>)
    requires pos <= |stream|
    ensures end.Some? ==> pos < end.value <= |stream|
    decreases |stream| - pos
  {
    match PieceAt(chunkSize, stream, pos)
    case Broken => None
    case Final(end) => TrailersEnd(stream, end)
    case Whole(end) => BodyEnd(chunkSize, stream, end)
  }

  // ----- exactly the chunked bodies are recognised -------------------------------------------------

  lemma {:induction false} LineFromFinds(stream: seq<Byte>, pos: nat, from: nat, line: seq<Byte>)
    requires IsLine(line) && At(stream, pos, line) && pos <= from < pos + |line|
    ensures LineFrom(stream, pos, from) == Some(pos + |line|)
    decreases pos + |line| - from
  {
    assert stream[from] == line[from - pos];
    if from < pos + |line| - 1 {
      LineFromFinds(stream, pos, from + 1, line);
    }
  }

  lemma {:induction false} LineFromIsLine(stream: seq<Byte>, pos: nat, from: nat)
    requires pos <= from <= |stream| && LineFrom(stream, pos, from).Some?
    requires forall i :: pos <= i < from ==> stream[i] != LF
    ensures IsLine(stream[pos..LineFrom(stream, pos, from).value])
    decreases |stream| - from
  {
    if stream[from] != LF {
      LineFromIsLine(stream, pos, from + 1);
    }
  }

  lemma LineThere(stream: seq<Byte>, pos: nat, line: seq<Byte>)
    requires IsLine(line) && At(stream, pos, line)
    ensures LineEnd(stream, pos) == Some(pos + |line|)
  {
    LineFromFinds(stream, pos, pos, line);
  }

  lemma ChunkThere(chunkSize: SizeParser, stream: seq<Byte>, pos: nat, chunk: Chunk)
    requires WellFormedChunk(chunkSize, chunk) && At(stream, pos, EncodeChunk(chunk))
    ensures PieceAt(chunkSize, stream, pos) == Whole(pos + |EncodeChunk(chunk)|)
  {
    AtSplits(stream, pos, chunk.size + chunk.data, CRLF);
    AtSplits(stream, pos, chunk.size, chunk.data);
    LineThere(stream, pos, chunk.size);
    LineThere(stream, pos + |chunk.size + chunk.data|, CRLF);
  }

  lemma {:induction false} TrailersThere(stream: seq<Byte>, pos: nat, trailers: seq<seq<Byte>>)
    requires forall trailer :: trailer in trailers ==> WellFormedTrailer(trailer)
    requires At(stream, pos, Concat(trailers) + CRLF)
    ensures TrailersEnd(stream, pos) == Some(pos + |Concat(trailers) + CRLF|)
    decreases |trailers|
  {
    if trailers == [] {
      assert Concat(trailers) + CRLF == CRLF;
      LineThere(stream, pos, CRLF);
    } else {
      var rest := Concat(trailers[1..]) + CRLF;
      assert Concat(trailers) + CRLF == trailers[0] + rest;
      AtSplits(stream, pos, trailers[0], rest);
      assert WellFormedTrailer(trailers[0]);
      LineThere(stream, pos, trailers[0]);
      TrailersThere(stream, pos + |trailers[0]|, trailers[1..]);
    }
  }

  lemma ChunkIsPassed(chunkSize: SizeParser, stream: seq<Byte>, pos: nat, end: nat, chunk: Chunk)
    requires WellFormedChunk(chunkSize, chunk) && At(stream, pos, EncodeChunk(chunk))
    requires end == pos + |EncodeChunk(chunk)|
    ensures end <= |stream| && BodyEnd(chunkSize, stream, pos) == BodyEnd(chunkSize, stream, end)
  {
    ChunkThere(chunkSize, stream, pos, chunk);
  }

  lemma {:induction false} ChunksThere(
    chunkSize: SizeParser, stream: seq<Byte>, pos: nat, end: nat, chunks: seq<Chunk>)
    requires forall chunk :: chunk in chunks ==> WellFormedChunk(chunkSize, chunk)
    requires At(stream, pos, EncodeChunks(chunks)) && end == pos + |EncodeChunks(chunks)|
    ensures end <= |stream| && BodyEnd(chunkSize, stream, pos) == BodyEnd(chunkSize, stream, end)
    decreases |chunks|
  {
    if chunks != [] {
      var first, rest := EncodeChunk(chunks[0]), EncodeChunks(chunks[1..]);
      assert EncodeChunks(chunks) == first + rest;
      AtSplits(stream, pos, first, rest);
      var next := pos + |first|;
      ChunkIsPassed(chunkSize, stream, pos, next, chunks[0]);
      ChunksThere(chunkSize, stream, next, end, chunks[1..]);
    }
  }

  lemma FinalThere(
    chunkSize: SizeParser, stream: seq<Byte>, pos: nat, last: seq<Byte>, trailers: seq<seq<Byte>>)
    requires IsLine(last) && chunkSize(last) == Some(0)
    requires forall trailer :: trailer in trailers ==> WellFormedTrailer(trailer)
    requires At(stream, pos, last + (Concat(trailers) + CRLF))
    ensures BodyEnd(chunkSize, stream, pos) == Some(pos + |last| + |Concat(trailers) + CRLF|)
  {
    AtSplits(stream, pos, last, Concat(trailers) + CRLF);
    LineThere(stream, pos, last);
    TrailersThere(stream, pos + |last|, trailers);
  }

  /** Every correctly encoded body is recognised, up to its last byte and no further. */
  lemma BodyThere(chunkSize: SizeParser, stream: seq<Byte>, pos: nat, body: Body)
    requires WellFormed(chunkSize, body) && At(stream, pos, Encode(body))
    ensures BodyEnd(chunkSize, stream, pos) == Some(pos + |Encode(body)|)
  {
    var chunks, tail := EncodeChunks(body.chunks), body.last + (Concat(body.trailers) + CRLF);
    InTwoParts(body);
    AtSplits(stream, pos, chunks, tail);
    PartsThere(chunkSize, stream, pos, pos + |chunks|, body);
  }

  lemma PartsThere(chunkSize: SizeParser, stream: seq<Byte>, pos: nat, middle: nat, body: Body)
    requires WellFormed(chunkSize, body) && At(stream, pos, EncodeChunks(body.chunks))
    requires middle == pos + |EncodeChunks(body.chunks)|
    requires At(stream, middle, body.last + (Concat(body.trailers) + CRLF))
    ensures middle <= |stream|
    ensures BodyEnd(chunkSize, stream, pos) == Some(middle + |body.last| + |Concat(body.trailers) + CRLF|)
  {
    ChunksThere(chunkSize, stream, pos, middle, body.chunks);
    FinalThere(chunkSize, stream, middle, body.last, body.trailers);
  }

  lemma InTwoParts(body: Body)
    ensures Encode(body) == EncodeChunks(body.chunks) + (body.last + (Concat(body.trailers) + CRLF))
  {
  }

  lemma {:induction false} TrailersOf(stream: seq<Byte>, pos: nat) returns (trailers: seq<seq<Byte>>)
    requires pos <= |stream| && TrailersEnd(stream, pos).Some?
    ensures forall trailer :: trailer in trailers ==> WellFormedTrailer(trailer)
    ensures Concat(trailers) + CRLF == stream[pos..TrailersEnd(stream, pos).value]
    decreases |stream| - pos
  {
    LineFromIsLine(stream, pos, pos);
    var line := LineEnd(stream, pos).value;
    if stream[pos..line] == CRLF {
      trailers := [];
    } else {
      var later := TrailersOf(stream, line);
      trailers := [stream[pos..line]] + later;
      assert trailers[1..] == later;
      var end := TrailersEnd(stream, pos).value;
      assert stream[pos..end] == stream[pos..line] + stream[line..end];
    }
  }

  lemma ChunkOf(chunkSize: SizeParser, stream: seq<Byte>, pos: nat) returns (chunk: Chunk)
    requires pos <= |stream| && PieceAt(chunkSize, stream, pos).Whole?
    ensures WellFormedChunk(chunkSize, chunk)
    ensures EncodeChunk(chunk) == stream[pos..PieceAt(chunkSize, stream, pos).end]
  {
    LineFromIsLine(stream, pos, pos);
    var line := LineEnd(stream, pos).value;
    var data := line + chunkSize(stream[pos..line]).value;
    chunk := Chunk(stream[pos..line], stream[line..data]);
    assert stream[pos..data + 2] == stream[pos..line] + stream[line..data] + stream[data..data + 2];
  }

  /** The line that ends the chunks and the trailers behind it are a body without chunks. */
  lemma FinalOf(chunkSize: SizeParser, stream: seq<Byte>, pos: nat) returns (body: Body)
    requires pos <= |stream| && PieceAt(chunkSize, stream, pos).Final?
    requires TrailersEnd(stream, PieceAt(chunkSize, stream, pos).end).Some?
    ensures WellFormed(chunkSize, body)
    ensures Encode(body) == stream[pos..TrailersEnd(stream, PieceAt(chunkSize, stream, pos).end).value]
  {
    var line := PieceAt(chunkSize, stream, pos).end;
    var end := TrailersEnd(stream, line).value;
    LineFromIsLine(stream, pos, pos);
    var trailers := TrailersOf(stream, line);
    body := Body([], stream[pos..line], trailers);
    assert Encode(body) == body.last + (Concat(trailers) + CRLF);
    assert stream[pos..end] == stream[pos..line] + stream[line..end];
  }

  lemma OneChunkFirst(chunkSize: SizeParser, chunk: Chunk, after: Body)
    requires WellFormedChunk(chunkSize, chunk) && WellFormed(chunkSize, after)
    ensures WellFormed(chunkSize, after.(chunks := [chunk] + after.chunks))
    ensures Encode(after.(chunks := [chunk] + after.chunks)) == EncodeChunk(chunk) + Encode(after)
  {
    EncodedFirst(chunk, after);
  }

  /** Whatever is recognised is one complete chunked body. */
  lemma {:induction false} BodyOf(chunkSize: SizeParser, stream: seq<Byte>, pos: nat) returns (body: Body)
    requires pos <= |stream| && BodyEnd(chunkSize, stream, pos).Some?
    ensures WellFormed(chunkSize, body) && Encode(body) == stream[pos..BodyEnd(chunkSize, stream, pos).value]
    decreases |stream| - pos
  {
    var piece := PieceAt(chunkSize, stream, pos);
    if piece.Final? {
      body := FinalOf(chunkSize, stream, pos);
    } else {
      var end, middle := BodyEnd(chunkSize, stream, pos).value, piece.end;
      var chunk := ChunkOf(chunkSize, stream, pos);
      var after := BodyOf(chunkSize, stream, middle);
      body := after.(chunks := [chunk] + after.chunks);
      OneChunkFirst(chunkSize, chunk, after);
      assert stream[pos..end] == stream[pos..middle] + stream[middle..end];
    }
  }

  lemma EncodedFirst(chunk: Chunk, after: Body)
    ensures Encode(after.(chunks := [chunk] + after.chunks)) == EncodeChunk(chunk) + Encode(after)
  {
    assert ([chunk] + after.chunks)[1..] == after.chunks;
  }

  /** A stream starts with at most one chunked body: where it ends is not up to the reader. */
  lemma BodiesAreUnambiguous(chunkSize: SizeParser, a: Body, b: Body, restA: seq<Byte>, restB: seq<Byte>)
    requires WellFormed(chunkSize, a) && WellFormed(chunkSize, b)
    requires Encode(a) + restA == Encode(b) + restB
    ensures Encode(a) == Encode(b) && restA == restB
  {
    var stream := Encode(a) + restA;
    assert At(stream, 0, Encode(a)) && At(stream, 0, Encode(b));
    BodyThere(chunkSize, stream, 0, a);
    BodyThere(chunkSize, stream, 0, b);
    assert stream[|Encode(a)|..] == restA && stream[|Encode(b)|..] == restB;
  }

  // ----- the relay ---------------------------------------------------------------------------------

  /** Reads `stream` from the start and sends what it read upstream, which takes `capacity` bytes, or
      any number of them, before it fails. */
  class Relay {
    const stream: seq<Byte>
    const capacity: Option<nat>
    var pos: nat
    var output: seq<Byte>

    /** Whatever happens, what was sent is what stands at the start of the stream. */
    predicate Valid()
      reads this
    {
      |output| <= pos <= |stream| && output == stream[..|output|]
    }

    /** Everything read has been sent. */
    predicate InStep()
      reads this
    {
      Valid() && |output| == pos && Takes(pos)
    }

    predicate Takes(n: nat)
    {
      capacity.None? || n <= capacity.value
    }

    constructor (stream: seq<Byte>, capacity: Option<nat>)
      ensures this.stream == stream && this.capacity == capacity && InStep() && pos == 0
    {
      this.stream, this.capacity, pos, output := stream, capacity, 0, [];
    }

    /** Sends everything read up to `end`; a failing upstream may have taken a part of it. */
    method Send(end: nat) returns (ok: bool)
      requires InStep() && end <= |stream| && pos <= end
      modifies this
      ensures Valid() && pos == end && ok == Takes(end) && (ok ==> InStep())
    {
      ok := capacity.None? || end <= capacity.value;
      var sent := if ok then end else capacity.value;
      output := output + stream[pos..sent];
      assert stream[..sent] == stream[..pos] + stream[pos..sent];
      pos := end;
    }

    /** Reads one line and sends it on, unless it does not end within the limit. */
    method CopyLine() returns (line: Option<seq<Byte>>)
      requires InStep()
      modifies this
      ensures Valid() && (line.Some? ==> InStep())
      ensures var end := LineEnd(stream, old(pos));
        if end.Some? && Takes(end.value) then pos == end.value && line == Some(stream[old(pos)..pos])
        else line == None
    {
      var start, end := pos, pos;
      while end < |stream| && end < start + MAX_LINE && stream[end] != LF
        invariant start <= end <= |stream| && end <= start + MAX_LINE
        invariant LineEnd(stream, start) == LineFrom(stream, start, end)
      {
        end := end + 1;
      }
      if end == |stream| || end == start + MAX_LINE {
        pos := end;
        return None;
      }
      var ok := Send(end + 1);
      line := if ok then Some(stream[start..pos]) else None;
    }

    /** Copies exactly `length` bytes in pieces of whatever size the reader yields. */
    method CopyExact(length: nat) returns (ok: bool)
      requires InStep()
      modifies this
      ensures Valid()
      ensures ok <==> old(pos) + length <= |stream| && Takes(old(pos) + length)
      ensures ok ==> InStep() && pos == old(pos) + length
    {
      var end := pos + length;
      while pos < end && pos < |stream|
        invariant InStep() && old(pos) <= pos <= end
        decreases end - pos
      {
        var most := if |stream| < end then |stream| else end;
        assert pos < most <= most;
        var next :| pos < next <= most;
        var sent := Send(next);
        if !sent {
          return false;
        }
      }
      ok := pos == end;
    }

    /** Copies one chunk, or the line that ends the chunks. */
    method CopyPiece(chunkSize: SizeParser) returns (piece: Piece)
      requires InStep()
      modifies this
      ensures Valid()
      ensures var there := PieceAt(chunkSize, stream, old(pos));
        if there.Broken? || !Takes(there.end) then piece == Broken
        else piece == there && InStep() && pos == there.end
    {
      var line := CopyLine();
      if line.None? {
        return Broken;
      }
      var size := chunkSize(line.value);
      if size.None? {
        return Broken;
      }
      if size.value == 0 {
        return Final(pos);
      }
      var copied := CopyExact(size.value);
      if !copied {
        return Broken;
      }
      var closing := CopyLine();
      piece := if closing == Some(CRLF) then Whole(pos) else Broken;
    }

    method CopyTrailers() returns (ok: bool)
      requires InStep()
      modifies this
      ensures Valid()
      ensures ok <==> TrailersEnd(stream, old(pos)).Some? && Takes(TrailersEnd(stream, old(pos)).value)
      ensures ok ==> InStep() && pos == TrailersEnd(stream, old(pos)).value
    {
      var line := CopyLine();
      ghost var start := old(pos);
      while line.Some? && line.value != CRLF
        invariant start <= |stream| && TrailersEnd(stream, old(pos)) == TrailersEnd(stream, start)
        invariant Valid() && (line.Some? ==> InStep())
        invariant var end := LineEnd(stream, start);
          if end.Some? && Takes(end.value) then pos == end.value && line == Some(stream[start..pos])
          else line == None
        decreases |stream| - start
      {
        start := pos;
        line := CopyLine();
      }
      ok := line.Some?;
    }

    /** Copies one chunked body. It succeeds exactly when a whole body is there and upstream takes it,
        and then not a byte more is read. */
    method CopyChunked(chunkSize: SizeParser) returns (ok: bool)
      requires InStep()
      modifies this
      ensures Valid()
      ensures ok <==> BodyEnd(chunkSize, stream, old(pos)).Some?
                      && Takes(BodyEnd(chunkSize, stream, old(pos)).value)
      ensures ok ==> InStep() && pos == BodyEnd(chunkSize, stream, old(pos)).value
    {
      ghost var start := pos;
      var piece := CopyPiece(chunkSize);
      while piece.Whole?
        invariant start <= |stream| && BodyEnd(chunkSize, stream, old(pos)) == BodyEnd(chunkSize, stream, start)
        invariant Valid()
        invariant var there := PieceAt(chunkSize, stream, start);
          if there.Broken? || !Takes(there.end) then piece == Broken
          else piece == there && InStep() && pos == there.end
        decreases |stream| - start
      {
        start := pos;
        piece := CopyPiece(chunkSize);
      }
      if piece.Broken? {
        return false;
      }
      ok := CopyTrailers();
    }
  }

}
