/**
 Copying a partition out of a disk image into a sparse file: chunks of zeros are skipped by seeking,
 and the length is set at the end.
 */
module SparseExtract {
  import opened Bytes

  const CHUNK_BYTES: nat := 1024 * 1024

  function Zeros(n: nat): (zeros: seq<Byte>)
    ensures |zeros| == n && forall i :: 0 <= i < n ==> zeros[i] == 0
  {
    seq(n, _ => 0)
  }

  /** A file's bytes, seen as `n` bytes long: cut off, or filled up with zeros. */
  function Resized(bytes: seq<Byte>, n: nat): (resized: seq<Byte>)
    ensures |resized| == n
  {
    if n <= |bytes| then bytes[..n] else bytes + Zeros(n - |bytes|)
  }

  /** A new file and its position. Operation number `k` on it fails when `fails(k)`. */
  class OutputFile {
    const fails: nat -> bool
    var bytes: seq<Byte>
    var pos: nat
    var operations: nat
    ghost var touched: seq<(nat, nat)>

    constructor (fails: nat -> bool)
      ensures this.fails == fails && bytes == [] && pos == 0 && operations == 0 && touched == []
    {
      this.fails := fails;
      bytes, pos, operations, touched := [], 0, 0, [];
    }

    method Seek(ahead: nat) returns (ok: bool)
      modifies `pos, `operations
      ensures operations == old(operations) + 1 && ok == !fails(old(operations))
      ensures pos == old(pos) + if ok then ahead else 0
    {
      ok := !fails(operations);
      operations := operations + 1;
      if ok {
        pos := pos + ahead;
      }
    }

    /** Writes at the position; a gap before it reads as zeros. */
    method WriteAll(data: array<Byte>, len: nat) returns (ok: bool)
      requires len <= data.Length
      modifies this
      ensures operations == old(operations) + 1 && ok == !fails(old(operations))
      ensures ok ==> pos == old(pos) + len && touched == old(touched) + [(old(pos), pos)]
      ensures ok ==> bytes == Resized(old(bytes), old(pos)) + data[..len] + old(bytes)[if pos <= |old(bytes)| then pos else |old(bytes)|..]
    {
      ok := !fails(operations);
      operations := operations + 1;
      if ok {
        touched := touched + [(pos, pos + len)];
        var end := pos + len;
        bytes := Resized(bytes, pos) + data[..len] + bytes[if end <= |bytes| then end else |bytes|..];
        pos := end;
      }
    }

    method SetLen(n: nat) returns (ok: bool)
      modifies `bytes, `operations
      ensures operations == old(operations) + 1 && ok == !fails(old(operations))
      ensures ok ==> bytes == Resized(old(bytes), n)
    {
      ok := !fails(operations);
      operations := operations + 1;
      if ok {
        bytes := Resized(bytes, n);
      }
    }
  }

  /** Fills the start of the buffer from the source, or fails when the source ends before that. */
  method ReadExact(source: seq<Byte>, pos: nat, data: array<Byte>, len: nat) returns (ok: bool)
    requires 0 < len <= data.Length
    modifies data
    ensures ok <==> pos + len <= |source|
    ensures ok ==> data[..len] == source[pos..pos + len]
  {
    ok := pos + len <= |source|;
    if ok {
      forall i | 0 <= i < len {
        data[i] := source[pos + i];
      }
    }
  }

  method AllZero(data: array<Byte>, len: nat) returns (zero: bool)
    requires len <= data.Length
    ensures zero <==> forall i :: 0 <= i < len ==> data[..len][i] == 0
  {
    var i := 0;
    while i < len
      invariant 0 <= i <= len && forall j :: 0 <= j < i ==> data[..len][j] == 0
    {
      if data[i] != 0 {
        assert data[..len][i] != 0;
        return false;
      }
      i := i + 1;
    }
    zero := true;
  }

  predicate RangeExists(source: seq<Byte>, offset: nat, size: nat) {
    size == 0 || offset + size <= |source|
  }

  function Range(source: seq<Byte>, offset: nat, size: nat): seq<Byte>
    requires RangeExists(source, offset, size)
  {
    if size == 0 then [] else source[offset..offset + size]
  }

  function Chunks(size: nat): nat {
    (size + CHUNK_BYTES - 1) / CHUNK_BYTES
  }

  ghost predicate HoldsData(bytes: seq<Byte>, from: nat, end: nat) {
    from <= end <= |bytes| && exists i :: from <= i < end && bytes[i] != 0
  }

  /** The file stands for the first `n` bytes of the range: its own bytes, then zeros. */
  ghost predicate Copied(source: seq<Byte>, offset: nat, n: nat, bytes: seq<Byte>) {
    RangeExists(source, offset, n) && |bytes| <= n && Resized(bytes, n) == Range(source, offset, n)
  }

  lemma SkippedZeros(source: seq<Byte>, offset: nat, n: nat, len: nat, bytes: seq<Byte>)
    requires Copied(source, offset, n, bytes) && 0 < len && offset + n + len <= |source|
    requires forall i :: offset + n <= i < offset + n + len ==> source[i] == 0
    ensures Copied(source, offset, n + len, bytes)
  {
    var longer := Resized(bytes, n + len);
    forall i | 0 <= i < n + len ensures longer[i] == source[offset + i] {
      if i < n {
        assert longer[i] == Resized(bytes, n)[i];
      }
    }
  }

  lemma WroteData(source: seq<Byte>, offset: nat, n: nat, len: nat, bytes: seq<Byte>)
    requires Copied(source, offset, n, bytes) && 0 < len && offset + n + len <= |source|
    ensures Copied(source, offset, n + len, Resized(bytes, n) + source[offset + n..offset + n + len])
  {
  }

  /** Every part written is a chunk with data in it. */
  ghost predicate WroteOnlyData(bytes: seq<Byte>, offset: nat, end: nat, touched: seq<(nat, nat)>) {
    forall t :: t in touched ==>
      && t.0 % CHUNK_BYTES == 0 && t.1 - t.0 <= CHUNK_BYTES && t.1 <= end
      && HoldsData(bytes, offset + t.0, offset + t.1)
  }

  lemma TouchedInOutput(source: seq<Byte>, offset: nat, size: nat, touched: seq<(nat, nat)>)
    requires RangeExists(source, offset, size) && WroteOnlyData(source, offset, size, touched)
    ensures WroteOnlyData(Range(source, offset, size), 0, size, touched)
  {
    var output := Range(source, offset, size);
    forall t | t in touched ensures HoldsData(output, t.0, t.1) {
      var i :| offset + t.0 <= i < offset + t.1 && source[i] != 0;
      assert output[i - offset] != 0;
    }
  }

  /** One chunk: read, then skipped when it is all zeros and written otherwise. */
  method CopyChunk(source: seq<Byte>, offset: nat, file: OutputFile, chunk: array<Byte>, len: nat) returns (ok: bool)
    requires 0 < len <= CHUNK_BYTES == chunk.Length && file.pos % CHUNK_BYTES == 0
    requires Copied(source, offset, file.pos, file.bytes) && WroteOnlyData(source, offset, file.pos, file.touched)
    modifies file, chunk
    ensures ok <==> offset + old(file.pos) + len <= |source| && !file.fails(old(file.operations))
    ensures ok ==> file.pos == old(file.pos) + len && file.operations == old(file.operations) + 1
    ensures ok ==> Copied(source, offset, file.pos, file.bytes)
    ensures ok ==> WroteOnlyData(source, offset, file.pos, file.touched)
  {
    ghost var begin := file.pos;
    ok := ReadExact(source, offset + file.pos, chunk, len);
    if !ok {
      return;
    }
    var zero := AllZero(chunk, len);
    if zero {
      assert forall i :: offset + begin <= i < offset + begin + len ==> source[i] == chunk[..len][i - offset - begin];
      SkippedZeros(source, offset, begin, len, file.bytes);
      ok := file.Seek(len);
    } else {
      WroteData(source, offset, begin, len, file.bytes);
      assert HoldsData(source, offset + begin, offset + begin + len) by {
        var i :| 0 <= i < len && chunk[..len][i] != 0;
        assert source[offset + begin + i] != 0;
      }
      ok := file.WriteAll(chunk, len);
    }
  }

  /** Copies a range. It succeeds exactly when the source has the range and no operation on the file
      fails, and then the file is the range; `touched` are the parts written, all with data in them. */
  method CopySparse(source: seq<Byte>, offset: nat, size: nat, fails: nat -> bool)
    returns (ok: bool, output: seq<Byte>, ghost touched: seq<(nat, nat)>)
    ensures ok <==> RangeExists(source, offset, size) && forall k: nat :: k <= Chunks(size) ==> !fails(k)
    ensures ok ==> output == Range(source, offset, size) && WroteOnlyData(output, 0, size, touched)
  {
    var file := new OutputFile(fails);
    var chunk := new Byte[CHUNK_BYTES];
    var remaining := size;
    ok, output, touched := false, [], [];
    while remaining > 0
      invariant 0 <= remaining <= size && file.fails == fails && fresh(file) && fresh(chunk)
      invariant chunk.Length == CHUNK_BYTES && file.pos == size - remaining
      invariant Copied(source, offset, file.pos, file.bytes)
      invariant WroteOnlyData(source, offset, file.pos, file.touched)
      invariant if remaining > 0 then file.pos == file.operations * CHUNK_BYTES else file.operations == Chunks(size)
      invariant forall k: nat :: k < file.operations ==> !fails(k)
    {
      var len := if remaining <= CHUNK_BYTES then remaining else CHUNK_BYTES;
      OneMoreChunk(size, file.operations, len);
      var done := CopyChunk(source, offset, file, chunk, len);
      if !done {
        return;
      }
      remaining := remaining - len;
    }
    touched := file.touched;
    ok := file.SetLen(size);
    output := file.bytes;
    TouchedInOutput(source, offset, size, touched);
  }

  /** Chunk number `k` is the last one exactly when it ends the range. */
  lemma OneMoreChunk(size: nat, k: nat, len: nat)
    requires k * CHUNK_BYTES < size
    requires len == if size - k * CHUNK_BYTES <= CHUNK_BYTES then size - k * CHUNK_BYTES else CHUNK_BYTES
    ensures k < Chunks(size) && (k * CHUNK_BYTES + len == size <==> k + 1 == Chunks(size))
    ensures k * CHUNK_BYTES + len < size ==> k * CHUNK_BYTES + len == (k + 1) * CHUNK_BYTES
    ensures (k * CHUNK_BYTES) % CHUNK_BYTES == 0
  {
  }

}
