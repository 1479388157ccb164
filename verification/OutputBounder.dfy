/**
 The output of a post-install script on its way to the server: sent as it comes up to a limit, then
 only its last chunks, behind a line that counts what was left out.
 */
module OutputBounder {
  import opened Options
  import opened Bytes
  import opened Text

  const LIVE_OUTPUT_BYTES: nat := 1024 * 1024
  const KEPT_TAIL_BYTES: nat := 256 * 1024

  const ELLIPSIS: seq<Byte> := [0xE2, 0x80, 0xA6]

  // ----- what the bounded output is ----------------------------------------------------------------

  /** The bytes in chunks `from` up to, not including, `end`. */
  function Total(chunks: seq<seq<Byte>>, from: nat, end: nat): nat
    requires from <= end <= |chunks|
    decreases end
  {
    if from == end then 0 else Total(chunks, from, end - 1) + |chunks[end - 1]|
  }

  lemma {:induction false} TotalSplits(chunks: seq<seq<Byte>>, from: nat, middle: nat, end: nat)
    requires from <= middle <= end <= |chunks|
    ensures Total(chunks, from, end) == Total(chunks, from, middle) + Total(chunks, middle, end)
    decreases end
  {
    if middle < end {
      TotalSplits(chunks, from, middle, end - 1);
    }
  }

  /** The output's first `live` chunks are the longest run within the live limit; of the others, those
      from `kept` on are the longest run that ends the output and is within the tail limit. */
  ghost predicate Cut(chunks: seq<seq<Byte>>, live: nat, kept: nat) {
    && live <= kept <= |chunks|
    && Total(chunks, 0, live) <= LIVE_OUTPUT_BYTES
    && (live < |chunks| ==> Total(chunks, 0, live + 1) > LIVE_OUTPUT_BYTES)
    && Total(chunks, kept, |chunks|) <= KEPT_TAIL_BYTES
    && (live < kept ==> Total(chunks, kept - 1, |chunks|) > KEPT_TAIL_BYTES)
  }

  /** There is one way to cut an output, so it stands for every longer choice too. */
  lemma CutIsLongest(chunks: seq<seq<Byte>>, live: nat, kept: nat, i: nat)
    requires Cut(chunks, live, kept) && i <= |chunks|
    ensures Total(chunks, 0, i) <= LIVE_OUTPUT_BYTES <==> i <= live
    ensures live <= i ==> (Total(chunks, i, |chunks|) <= KEPT_TAIL_BYTES <==> kept <= i)
  {
    if i <= live {
      TotalSplits(chunks, 0, i, live);
    } else {
      TotalSplits(chunks, 0, live + 1, i);
    }
    if kept <= i {
      TotalSplits(chunks, kept, i, |chunks|);
    } else if live <= i {
      TotalSplits(chunks, i, kept - 1, |chunks|);
    }
  }

  function Ascii(text: string): (bytes: seq<Byte>)
    ensures |bytes| == |text|
  {
    seq(|text|, i requires 0 <= i < |text| => if text[i] as int < 128 then text[i] as int as Byte else 63)
  }

  function Marker(omitted: nat): seq<Byte> {
    Ascii("[") + ELLIPSIS + Ascii(" " + Decimal(omitted) + " bytes of output omitted by the agent ") + ELLIPSIS
    + Ascii("]\n")
  }

  function RestItem(omitted: nat, tail: seq<seq<Byte>>): seq<Byte> {
    (if omitted > 0 then Marker(omitted) else []) + Concat(tail)
  }

  function Rest(chunks: seq<seq<Byte>>, live: nat, kept: nat): seq<Byte>
    requires live <= kept <= |chunks|
  {
    RestItem(Total(chunks, live, kept), chunks[kept..])
  }

  /** What is sent for an output cut at `live` and `kept`. */
  function Sent(chunks: seq<seq<Byte>>, live: nat, kept: nat): seq<seq<Byte>>
    requires live <= kept <= |chunks|
  {
    chunks[..live] + if live < |chunks| then [Rest(chunks, live, kept)] else []
  }

  // ----- the stream --------------------------------------------------------------------------------

  class BoundedOutput {
    const chunks: seq<seq<Byte>>
    var at: nat
    var ended: bool
    var live: bool
    var sent: nat
    var tail: seq<seq<Byte>>
    var tailBytes: nat
    var omitted: nat
    ghost var liveCount: nat

    /** `at` chunks are read; of those after the live ones, the tail holds the last ones that fit. */
    ghost predicate Valid()
      reads `at, `live, `sent, `tail, `tailBytes, `omitted, `liveCount
    {
      && liveCount <= at <= |chunks|
      && sent == Total(chunks, 0, liveCount) <= LIVE_OUTPUT_BYTES
      && (live ==> liveCount == at && tail == [] && omitted == 0 && tailBytes == 0)
      && (!live ==> liveCount < at && Overflowing() && KeptSoFar(at - |tail|))
    }

    /** The tail is the read chunks from `kept` on, and the live ones up to `kept` are left out. */
    ghost predicate Holding(kept: int)
      reads `at, `live, `sent, `tail, `tailBytes, `omitted, `liveCount
    {
      && liveCount <= kept <= at <= |chunks|
      && tail == chunks[kept..at]
      && tailBytes == Total(chunks, kept, at)
      && omitted == Total(chunks, liveCount, kept)
    }

    ghost predicate KeptSoFar(kept: int)
      reads `at, `live, `sent, `tail, `tailBytes, `omitted, `liveCount
    {
      && Holding(kept) && tailBytes <= KEPT_TAIL_BYTES
      && (liveCount < kept ==> Total(chunks, kept - 1, at) > KEPT_TAIL_BYTES)
    }

    ghost predicate Overflowing()
      reads `at, `live, `sent, `tail, `tailBytes, `omitted, `liveCount
    {
      liveCount < |chunks| && Total(chunks, 0, liveCount + 1) > LIVE_OUTPUT_BYTES
    }

    constructor (output: seq<seq<Byte>>)
      ensures Valid() && chunks == output && at == 0 && !ended && live
    {
      chunks := output;
      at, ended, live, sent, tail, tailBytes, omitted, liveCount := 0, false, true, 0, [], 0, 0, 0;
    }

    /** Takes the next chunk into the tail. */
    method PushBack(chunk: seq<Byte>, ghost kept: int)
      requires at < |chunks| && chunk == chunks[at] && Holding(kept)
      modifies `at, `tail, `tailBytes
      ensures Holding(kept) && at == old(at) + 1
    {
      at := at + 1;
      tailBytes := tailBytes + |chunk|;
      tail := tail + [chunk];
    }

    /** Lets go of the oldest chunk in the tail; there is one. */
    method PopFront(ghost kept: int)
      requires Holding(kept) && tailBytes > KEPT_TAIL_BYTES
      modifies `tail, `tailBytes, `omitted
      ensures Holding(kept + 1)
    {
      assert kept < at;
      var dropped := tail[0];
      TotalSplits(chunks, kept, kept + 1, at);
      TotalSplits(chunks, liveCount, kept, kept + 1);
      tail := tail[1..];
      tailBytes := tailBytes - |dropped|;
      omitted := omitted + |dropped|;
    }

    /** Takes a chunk into the tail and lets go of as many of the oldest as needed. */
    method Keep(chunk: seq<Byte>)
      requires at < |chunks| && chunk == chunks[at] && KeptSoFar(at - |tail|)
      modifies `at, `tail, `tailBytes, `omitted
      ensures at == old(at) + 1 && KeptSoFar(at - |tail|)
    {
      ghost var kept := at - |tail|;
      PushBack(chunk, kept);
      while tailBytes > KEPT_TAIL_BYTES
        invariant at == old(at) + 1 && Holding(kept)
        invariant liveCount < kept ==> Total(chunks, kept - 1, at) > KEPT_TAIL_BYTES
        decreases at - kept
      {
        PopFront(kept);
        kept := kept + 1;
      }
    }

    /** The stream's last answer: nothing when all of the output was live, the rest of it otherwise. */
    ghost predicate Final(item: Option<seq<Byte>>)
      reads `at, `live, `tail, `liveCount
    {
      if item.None? then live && at == |chunks| && Cut(chunks, |chunks|, |chunks|)
      else AtEnd(chunks, liveCount, |chunks| - |tail|, item.value)
    }

    /** The end of the stream: what is left of the output, if anything was held back. */
    method End() returns (item: Option<seq<Byte>>)
      requires Valid() && !ended && at == |chunks|
      modifies `ended
      ensures ended && Valid()
      ensures Final(item)
    {
      ended := true;
      if tail == [] && omitted == 0 {
        NothingHeld();
        return None;
      }
      var rest := BuildRest(omitted, tail);
      RestOfTheOutput(rest);
      item := Some(rest);
    }

    lemma RestOfTheOutput(rest: seq<Byte>)
      requires Valid() && !live && at == |chunks| && rest == RestItem(omitted, tail)
      ensures AtEnd(chunks, liveCount, |chunks| - |tail|, rest)
    {
      var kept := |chunks| - |tail|;
      CutHere(kept);
      assert chunks[kept..at] == chunks[kept..];
    }

    lemma CutHere(kept: int)
      requires Valid() && !live && at == |chunks| && kept == |chunks| - |tail|
      ensures liveCount < |chunks| && 0 <= kept && Cut(chunks, liveCount, kept)
    {
    }

    lemma NothingHeld()
      requires Valid() && tail == [] && omitted == 0
      ensures live
    {
      if !live {
        TotalSplits(chunks, 0, liveCount, liveCount + 1);
        TotalSplits(chunks, liveCount, liveCount + 1, at);
      }
    }

    /** One chunk of the output: sent live while it fits, and never again after one that did not. */
    method Take(chunk: seq<Byte>)
      requires Valid() && !ended && at < |chunks| && chunk == chunks[at]
      modifies `at, `live, `sent, `tail, `tailBytes, `omitted, `liveCount
      ensures Valid() && at == old(at) + 1
      ensures live ==> old(live)
      ensures !live ==> liveCount == old(liveCount)
    {
      live := live && sent + |chunk| <= LIVE_OUTPUT_BYTES;
      if live {
        sent := sent + |chunk|;
        at, liveCount := at + 1, liveCount + 1;
      } else {
        assert old(live) ==> Total(chunks, 0, liveCount + 1) == sent + |chunk|;
        Keep(chunk);
      }
    }

    /** Reads on until a chunk may be sent live or the output ends. */
    method Read() returns (item: Option<seq<Byte>>)
      requires Valid() && !ended
      modifies `at, `live, `sent, `tail, `tailBytes, `omitted, `liveCount
      ensures Valid()
      ensures item.Some? ==> live && old(live) && old(at) < |chunks| && at == old(at) + 1 && item.value == chunks[old(at)]
      ensures item.None? ==> at == |chunks| && (old(live) ==> liveCount == old(liveCount))
    {
      while at < |chunks|
        invariant Valid() && !ended && old(at) <= at
        invariant live ==> at == old(at) && old(live)
        invariant old(live) ==> liveCount == old(liveCount)
        decreases |chunks| - at
      {
        var chunk := chunks[at];
        Take(chunk);
        if live {
          return Some(chunk);
        }
      }
      item := None;
    }

    /** The stream's next item: a live chunk, or at the end of the output the rest of it, once. */
    method Next() returns (item: Option<seq<Byte>>)
      requires Valid()
      modifies this
      ensures Valid() && (old(ended) ==> item.None? && ended && liveCount == old(liveCount))
      ensures !ended ==> item.Some? && live && old(at) < |chunks| && at == old(at) + 1 && item.value == chunks[old(at)]
      ensures !old(ended) && ended ==> Final(item) && (old(live) ==> liveCount == old(liveCount))
    {
      if ended {
        return None;
      }
      item := Read();
      if item.None? {
        item := End();
      }
    }
  }

  method BuildRest(omitted: nat, tail: seq<seq<Byte>>) returns (rest: seq<Byte>)
    ensures rest == RestItem(omitted, tail)
  {
    rest := [];
    if omitted > 0 {
      rest := Marker(omitted);
    }
    ghost var start := rest;
    var i := 0;
    while i < |tail|
      invariant 0 <= i <= |tail| && rest == start + Concat(tail[..i])
    {
      ConcatSnoc(tail[..i], tail[i]);
      assert tail[..i + 1] == tail[..i] + [tail[i]];
      rest := rest + tail[i];
      i := i + 1;
    }
    assert tail[..i] == tail;
  }

  /** The last item says how many bytes are left out, if any are, and holds the bytes of the tail. */
  lemma RestMeans(chunks: seq<seq<Byte>>, live: nat, kept: nat)
    requires live <= kept <= |chunks|
    ensures var omitted := Concat(chunks[live..kept]);
      Rest(chunks, live, kept) == (if omitted == [] then [] else Marker(|omitted|)) + Concat(chunks[kept..])
  {
    TotalIsLength(chunks, live, kept);
  }

  ghost predicate AtEnd(output: seq<seq<Byte>>, live: nat, kept: int, item: seq<Byte>) {
    live < |output| && 0 <= kept && Cut(output, live, kept) && item == Rest(output, live, kept)
  }

  lemma SentWhole(output: seq<seq<Byte>>)
    ensures Sent(output, |output|, |output|) == output
  {
  }

  lemma SentCut(output: seq<seq<Byte>>, live: nat, kept: int, item: seq<Byte>)
    requires AtEnd(output, live, kept, item)
    ensures output[..live] + [item] == Sent(output, live, kept)
  {
  }

  lemma PrefixGrows(output: seq<seq<Byte>>, n: nat)
    requires n < |output|
    ensures output[..n] + [output[n]] == output[..n + 1]
  {
  }

  /** After its live chunks the stream gives the rest of the output, or there is none. */
  ghost predicate EndsWith(output: seq<seq<Byte>>, live: nat, kept: int, last: Option<seq<Byte>>) {
    if last.None? then live == |output| && Cut(output, live, live) else AtEnd(output, live, kept, last.value)
  }

  lemma EndedWith(stream: BoundedOutput, last: Option<seq<Byte>>, output: seq<seq<Byte>>, live: nat, kept: int)
    requires stream.Valid() && stream.Final(last) && stream.chunks == output
    requires live == stream.liveCount && kept == |output| - |stream.tail|
    ensures live <= |output| && EndsWith(output, live, kept, last)
  {
    if last.None? {
      assert stream.live && live == |output|;
    }
  }

  /** Polls the live chunks, up to the stream's last answer. */
  method LiveItems(stream: BoundedOutput) returns (items: seq<seq<Byte>>, last: Option<seq<Byte>>)
    requires stream.Valid() && !stream.ended && stream.live && stream.at == 0
    modifies stream
    ensures stream.ended && stream.Valid() && stream.Final(last) && items == stream.chunks[..stream.liveCount]
  {
    items := [];
    last := stream.Next();
    while last.Some? && !stream.ended
      invariant stream.Valid()
      invariant if stream.ended then items == stream.chunks[..stream.liveCount] && stream.Final(last)
                else stream.live && 0 < stream.at && last == Some(stream.chunks[stream.at - 1])
                     && items == stream.chunks[..stream.at - 1]
      decreases !stream.ended, |stream.chunks| - stream.at
    {
      PrefixGrows(stream.chunks, stream.at - 1);
      items := items + [last.value];
      last := stream.Next();
    }
  }

  /** Polls a new stream of the output to its end. */
  method PollAll(output: seq<seq<Byte>>)
    returns (items: seq<seq<Byte>>, last: Option<seq<Byte>>, ghost live: nat, ghost kept: int)
    ensures live <= |output| && items == output[..live] && EndsWith(output, live, kept, last)
  {
    var stream := new BoundedOutput(output);
    items, last := LiveItems(stream);
    live, kept := stream.liveCount, |output| - |stream.tail|;
    EndedWith(stream, last, output, live, kept);
  }

  /** Everything sent for an output, polled to the end of the stream. */
  method Bounded(output: seq<seq<Byte>>) returns (items: seq<seq<Byte>>, ghost live: nat, ghost kept: nat)
    ensures Cut(output, live, kept) && items == Sent(output, live, kept)
    ensures var omitted := Concat(output[live..kept]);
      Concat(items) == Concat(output[..live]) + (if omitted == [] then [] else Marker(|omitted|)) + Concat(output[kept..])
    ensures Concat(output[live..kept]) == [] ==> Concat(items) == Concat(output)
    ensures live <= |items| <= live + 1 && items[..live] == output[..live] && (|items| == live <==> live == |output|)
  {
    var last;
    ghost var end;
    items, last, live, end := PollAll(output);
    if last.None? {
      kept := live;
      SentWhole(output);
      assert output[..live] == output;
    } else {
      kept := end;
      SentCut(output, live, kept, last.value);
      items := items + [last.value];
    }
    NothingGoesUncounted(output, live, kept);
    if Concat(output[live..kept]) == [] {
      NothingLeftOut(output, live, kept);
    }
  }

  // ----- what is kept of an output -----------------------------------------------------------------

  lemma {:induction false} TotalIsLength(chunks: seq<seq<Byte>>, from: nat, end: nat)
    requires from <= end <= |chunks|
    ensures |Concat(chunks[from..end])| == Total(chunks, from, end)
    decreases end
  {
    if from < end {
      TotalIsLength(chunks, from, end - 1);
      ConcatSnoc(chunks[from..end - 1], chunks[end - 1]);
      assert chunks[from..end] == chunks[from..end - 1] + [chunks[end - 1]];
    }
  }

  lemma ThreeParts(chunks: seq<seq<Byte>>, live: nat, kept: nat)
    requires live <= kept <= |chunks|
    ensures Concat(chunks) == Concat(chunks[..live]) + Concat(chunks[live..kept]) + Concat(chunks[kept..])
  {
    var first, middle, last := chunks[..live], chunks[live..kept], chunks[kept..];
    assert chunks[..kept] == first + middle && chunks == chunks[..kept] + last;
    ConcatAppends(first + middle, last);
    ConcatAppends(first, middle);
  }

  lemma SentBytes(chunks: seq<seq<Byte>>, live: nat, kept: nat)
    requires Cut(chunks, live, kept)
    ensures Concat(Sent(chunks, live, kept)) == Concat(chunks[..live]) + Rest(chunks, live, kept)
  {
    if live < |chunks| {
      ConcatSnoc(chunks[..live], Rest(chunks, live, kept));
    } else {
      assert chunks[kept..] == [] && Sent(chunks, live, kept) == chunks[..live];
      assert Rest(chunks, live, kept) == [];
    }
  }

  /** The live bytes start the output, the tail ends it, and the bytes between are as many as the
      marker says: nothing is lost uncounted, repeated or reordered. */
  lemma NothingGoesUncounted(chunks: seq<seq<Byte>>, live: nat, kept: nat)
    requires Cut(chunks, live, kept)
    ensures Concat(chunks) == Concat(chunks[..live]) + Concat(chunks[live..kept]) + Concat(chunks[kept..])
    ensures |Concat(chunks[..live])| <= LIVE_OUTPUT_BYTES && |Concat(chunks[kept..])| <= KEPT_TAIL_BYTES
    ensures var omitted := Concat(chunks[live..kept]);
      Concat(Sent(chunks, live, kept))
      == Concat(chunks[..live]) + (if omitted == [] then [] else Marker(|omitted|)) + Concat(chunks[kept..])
  {
    ThreeParts(chunks, live, kept);
    SentBytes(chunks, live, kept);
    RestMeans(chunks, live, kept);
    BothWithinLimits(chunks, live, kept);
  }

  /** What leaves nothing out is sent whole. */
  lemma NothingLeftOut(chunks: seq<seq<Byte>>, live: nat, kept: nat)
    requires Cut(chunks, live, kept) && Concat(chunks[live..kept]) == []
    ensures Concat(Sent(chunks, live, kept)) == Concat(chunks)
  {
    NothingGoesUncounted(chunks, live, kept);
  }

  lemma BothWithinLimits(chunks: seq<seq<Byte>>, live: nat, kept: nat)
    requires Cut(chunks, live, kept)
    ensures |Concat(chunks[..live])| <= LIVE_OUTPUT_BYTES && |Concat(chunks[kept..])| <= KEPT_TAIL_BYTES
  {
    TotalIsLength(chunks, 0, live);
    TotalIsLength(chunks, kept, |chunks|);
    assert chunks[0..live] == chunks[..live] && chunks[kept..|chunks|] == chunks[kept..];
  }

  /** An output within the live limit passes chunk by chunk, and any longer one does not. */
  lemma ShortOutputPassesUnchanged(chunks: seq<seq<Byte>>, live: nat, kept: nat)
    requires Cut(chunks, live, kept)
    ensures |Concat(chunks)| <= LIVE_OUTPUT_BYTES ==> Sent(chunks, live, kept) == chunks
    ensures |Concat(chunks)| > LIVE_OUTPUT_BYTES ==> |Sent(chunks, live, kept)| == live + 1
  {
    CutIsLongest(chunks, live, kept, |chunks|);
    TotalIsLength(chunks, 0, |chunks|);
    assert chunks[0..|chunks|] == chunks;
  }

  /** The marker tells the number of omitted bytes: markers are equal only for equal counts. */
  lemma MarkerTellsTheCount(a: nat, b: nat)
    requires Marker(a) == Marker(b)
    ensures a == b
  {
    var left, right := Decimal(a), Decimal(b);
    assert |Marker(a)| == |left| + |Marker(0)| - 1 && |Marker(b)| == |right| + |Marker(0)| - 1 by {
      MarkerLength(a);
      MarkerLength(b);
    }
    forall i | 0 <= i < |left| ensures left[i] == right[i] {
      MarkerDigit(a, i);
      MarkerDigit(b, i);
    }
    DecimalInjective(a, b);
  }

  lemma MarkerLength(n: nat)
    ensures |Marker(n)| == |Decimal(n)| + |Marker(0)| - 1
  {
    assert |Decimal(0)| == 1;
  }

  lemma MarkerDigit(n: nat, i: nat)
    requires i < |Decimal(n)|
    ensures Marker(n)[5 + i] == Decimal(n)[i] as int as Byte
  {
    var text := " " + Decimal(n) + " bytes of output omitted by the agent ";
    assert text[1 + i] == Decimal(n)[i];
    assert Ascii(text)[1 + i] == Decimal(n)[i] as int as Byte;
    assert Marker(n)[4..4 + |text|] == Ascii(text);
  }

}
