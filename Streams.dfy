/**
 * The two streams extractResource connects: an InputStream over a resource's
 * bytes, which hands out at most as many bytes per read as it likes, and the
 * byte sink of a FileOutputStream.
 */
module Streams {
  import opened JavaLang

  class InputStream {
    const data: seq<byte>
    var pos: nat

    ghost predicate Valid()
      reads this
    {
      pos <= |data|
    }

    constructor (data: seq<byte>)
      ensures Valid() && this.data == data && pos == 0
    {
      this.data := data;
      pos := 0;
    }

    /**
     * InputStream.read(b): 0 for an empty b; -1 at the end of the stream;
     * otherwise between 1 and b.Length of the next bytes, stored at the
     * start of b. How many is the stream's choice.
     */
    method Read(b: array<byte>) returns (n: int)
      requires Valid()
      modifies this, b
      ensures Valid()
      ensures b.Length == 0 ==> n == 0
      ensures b.Length > 0 && old(pos) == |data| ==> n == -1
      ensures b.Length > 0 && old(pos) < |data| ==> 0 < n <= b.Length
      ensures n > 0 ==> pos == old(pos) + n && b[..n] == data[old(pos)..pos]
      ensures n <= 0 ==> pos == old(pos)
    {
      if b.Length == 0 {
        return 0;
      }
      if pos == |data| {
        return -1;
      }
      var available := |data| - pos;
      n :| 0 < n <= b.Length && n <= available;
      forall i | 0 <= i < n {
        b[i] := data[pos + i];
      }
      pos := pos + n;
    }
  }

  /** The bytes written to an output stream, and the chunks they were written in. */
  class OutputSink {
    var written: seq<byte>
    ghost var chunks: seq<seq<byte>>

    constructor ()
      ensures written == [] && chunks == []
    {
      written := [];
      chunks := [];
    }

    /** OutputStream.write(b, off, len). */
    method Write(b: array<byte>, off: nat, len: nat)
      requires off + len <= b.Length
      modifies this
      ensures written == old(written) + b[off..off + len]
      ensures chunks == old(chunks) + [b[off..off + len]]
    {
      written := written + b[off..off + len];
      chunks := chunks + [b[off..off + len]];
    }
  }
}
