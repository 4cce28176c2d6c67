/**
 * inputStreamToTempFile: copy a stream to a file through a 1024-byte buffer.
 * The temporary file is represented by the bytes written to it.
 */
module TempStaging {

  newtype byte = x: int | 0 <= x < 256

  const BufferSize: nat := 1024

  /** The bytes of successive chunks, in order. */
  function Concat(chunks: seq<seq<byte>>): seq<byte> {
    if chunks == [] then [] else Concat(chunks[..|chunks| - 1]) + chunks[|chunks| - 1]
  }

  /** A byte stream positioned somewhere in its content. */
  class InputStream {
    const content: seq<byte>
    var pos: nat
    /** The chunks handed out by successive successful reads. */
    ghost var delivered: seq<seq<byte>>

    ghost predicate Valid()
      reads this
    {
      pos <= |content|
    }

    /** What is still to be read. */
    ghost function Remaining(): seq<byte>
      reads this
      requires Valid()
    {
      content[pos..]
    }

    constructor (content: seq<byte>)
      ensures Valid() && this.content == content && pos == 0 && delivered == []
    {
      this.content := content;
      pos := 0;
      delivered := [];
    }

    /**
     * InputStream.read(byte[]): -1 at end of stream; otherwise at least one
     * and at most buffer.Length bytes, how many being the stream's choice.
     */
    method Read(buffer: array<byte>) returns (len: int)
      requires Valid() && buffer.Length > 0
      modifies this, buffer
      ensures Valid()
      ensures old(pos) == |content| ==> len == -1 && pos == old(pos) && delivered == old(delivered)
      ensures old(pos) < |content| ==>
                1 <= len <= buffer.Length && pos == old(pos) + len &&
                buffer[..len] == content[old(pos)..pos] &&
                delivered == old(delivered) + [buffer[..len]]
    {
      if pos == |content| {
        return -1;
      }
      var n :| 1 <= n <= buffer.Length && n <= |content| - pos;
      forall k | 0 <= k < n {
        buffer[k] := content[pos + k];
      }
      pos := pos + n;
      len := n;
      delivered := delivered + [buffer[..n]];
    }
  }

  /** A file being written. */
  class FileOutputStream {
    var written: seq<byte>
    /** The chunks passed to successive writes. */
    ghost var writes: seq<seq<byte>>

    constructor ()
      ensures written == [] && writes == []
    {
      written := [];
      writes := [];
    }

    /** OutputStream.write(b, off, len). */
    method Write(b: array<byte>, off: nat, len: nat)
      requires off + len <= b.Length
      modifies this
      ensures written == old(written) + b[off..off + len]
      ensures writes == old(writes) + [b[off..off + len]]
    {
      written := written + b[off..off + len];
      writes := writes + [b[off..off + len]];
    }
  }

  /**
   * The copy loop.  The file receives the whole rest of the stream, and its
   * writes are exactly the chunks the reads returned, in order, each of 1 to
   * 1024 bytes.
   */
  method InputStreamToTempFile(source: InputStream) returns (fos: FileOutputStream)
    requires source.Valid()
    modifies source
    ensures fresh(fos)
    ensures source.Valid() && source.pos == |source.content|
    ensures fos.written == old(source.Remaining())
    ensures source.delivered == old(source.delivered) + fos.writes
    ensures Concat(fos.writes) == fos.written
    ensures forall k | 0 <= k < |fos.writes| :: 0 < |fos.writes[k]| <= BufferSize
  {
    ghost var start := source.pos;
    ghost var log0 := source.delivered;
    fos := new FileOutputStream();
    var buffer := new byte[BufferSize];
    var len := source.Read(buffer);
    while len != -1
      invariant source.Valid() && start <= source.pos
      invariant len == -1 ==> source.pos == |source.content|
      invariant len != -1 ==>
                  1 <= len <= BufferSize && start + len <= source.pos &&
                  buffer[..len] == source.content[source.pos - len..source.pos]
      invariant fos.written == Concat(fos.writes)
      invariant fos.written == source.content[start..source.pos - (if len == -1 then 0 else len)]
      invariant source.delivered == log0 + fos.writes + (if len == -1 then [] else [buffer[..len]])
      invariant forall k | 0 <= k < |fos.writes| :: 0 < |fos.writes[k]| <= BufferSize
      decreases |source.content| - source.pos + (if len == -1 then 0 else 1)
    {
      ghost var before := fos.writes;
      fos.Write(buffer, 0, len);
      assert fos.writes == before + [buffer[..len]];
      assert fos.writes[..|fos.writes| - 1] == before;
      assert source.delivered == log0 + fos.writes;
      len := source.Read(buffer);
    }
  }
}
